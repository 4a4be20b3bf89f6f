/** One participant shard of a distributed transaction (`LocalShard`, src/dtxn.rs): an MVCC
    store, the prepared write-sets, the lock table and the append-only command log. */
module Shard {
  import opened Keys

  type TxnId = nat

  datatype Write = Write(key: Key, value: Option<Value>)

  datatype Version = Version(ts: Ts, value: Option<Value>)

  datatype Command =
    | TxnPrepare(txn: TxnId, readTs: Ts, ops: seq<Write>)
    | TxnCommit(txn: TxnId, commitTs: Ts, ops: seq<Write>)
    | TxnAbort(txn: TxnId)
    | Other

  /** The prepared map and the lock table. */
  datatype Pending = Pending(prepared: map<TxnId, seq<Write>>, locks: map<Key, TxnId>)

  datatype State = State(
    store: map<Key, seq<Version>>,
    pending: Pending,
    log: seq<Command>,
    lastCommit: map<Key, Ts>)

  const EMPTY := State(map[], Pending(map[], map[]), [], map[])

  datatype Outcome = Ok | Conflict | Unavailable | UnknownTxn

  // ---------------------------------------------------------------- effects of a call

  function WriteKeys(ws: seq<Write>): set<Key> {
    set i | 0 <= i < |ws| :: ws[i].key
  }

  function ReadKeys(rs: seq<(Key, Ts)>): set<Key> {
    set i | 0 <= i < |rs| :: rs[i].0
  }

  /** The versions of `k` that applying `ws` at `ts` appends, in write order. */
  function VersionsOf(ws: seq<Write>, k: Key, ts: Ts): seq<Version> {
    if ws == [] then []
    else
      var last := ws[|ws| - 1];
      VersionsOf(ws[..|ws| - 1], k, ts) + (if last.key == k then [Version(ts, last.value)] else [])
  }

  function Stored(store: map<Key, seq<Version>>, k: Key): seq<Version> {
    if k in store then store[k] else []
  }

  function ApplyWrites(store: map<Key, seq<Version>>, ws: seq<Write>, ts: Ts): map<Key, seq<Version>> {
    map k | k in store.Keys + WriteKeys(ws) :: Stored(store, k) + VersionsOf(ws, k, ts)
  }

  function NoteCommits(last: map<Key, Ts>, ws: seq<Write>, ts: Ts): map<Key, Ts> {
    map k | k in last.Keys + WriteKeys(ws) :: if k in WriteKeys(ws) then ts else last[k]
  }

  function LockAll(locks: map<Key, TxnId>, ws: seq<Write>, txn: TxnId): map<Key, TxnId> {
    map k | k in locks.Keys + WriteKeys(ws) :: if k in WriteKeys(ws) then txn else locks[k]
  }

  function UnlockAll(locks: map<Key, TxnId>, ws: seq<Write>): map<Key, TxnId> {
    locks - WriteKeys(ws)
  }

  /** OCC: none of `keys` was committed after the snapshot. */
  predicate OccValid(last: map<Key, Ts>, readTs: Ts, keys: set<Key>) {
    forall k :: k in keys && k in last ==> last[k] <= readTs
  }

  predicate NoForeignLock(locks: map<Key, TxnId>, ws: seq<Write>, txn: TxnId) {
    forall k :: k in WriteKeys(ws) && k in locks ==> locks[k] == txn
  }

  predicate Admits(s: State, txn: TxnId, readTs: Ts, writes: seq<Write>, readSet: seq<(Key, Ts)>) {
    && OccValid(s.lastCommit, readTs, ReadKeys(readSet) + WriteKeys(writes))
    && NoForeignLock(s.pending.locks, writes, txn)
  }

  function Prepare(s: State, txn: TxnId, readTs: Ts, writes: seq<Write>): State {
    s.(pending := Pending(s.pending.prepared[txn := writes], LockAll(s.pending.locks, writes, txn)),
       log := s.log + [TxnPrepare(txn, readTs, writes)])
  }

  function Release(p: Pending, txn: TxnId): Pending {
    if txn in p.prepared
    then Pending(p.prepared - {txn}, UnlockAll(p.locks, p.prepared[txn]))
    else p
  }

  function Commit(s: State, txn: TxnId, ts: Ts): State
    requires txn in s.pending.prepared
  {
    var ws := s.pending.prepared[txn];
    State(ApplyWrites(s.store, ws, ts), Release(s.pending, txn),
          s.log + [TxnCommit(txn, ts, ws)], NoteCommits(s.lastCommit, ws, ts))
  }

  function Abort(s: State, txn: TxnId): State {
    s.(pending := Release(s.pending, txn), log := s.log + [TxnAbort(txn)])
  }

  // ---------------------------------------------------------------- crash replay

  function ReplayCommand(p: Pending, c: Command): Pending {
    match c
    case TxnPrepare(txn, _, ops) => Pending(p.prepared[txn := ops], LockAll(p.locks, ops, txn))
    case TxnCommit(txn, _, ops) => Pending(p.prepared - {txn}, UnlockAll(p.locks, ops))
    case TxnAbort(txn) => Release(p, txn)
    case Other => p
  }

  function ReplayPending(log: seq<Command>): Pending {
    if log == [] then Pending(map[], map[])
    else ReplayCommand(ReplayPending(log[..|log| - 1]), log[|log| - 1])
  }

  function ReplayStore(store: map<Key, seq<Version>>, log: seq<Command>): map<Key, seq<Version>> {
    if log == [] then store
    else
      var before := ReplayStore(store, log[..|log| - 1]);
      match log[|log| - 1]
      case TxnCommit(_, ts, ops) => ApplyWrites(before, ops, ts)
      case _ => before
  }

  function ReplayLast(last: map<Key, Ts>, log: seq<Command>): map<Key, Ts> {
    if log == [] then last
    else
      var before := ReplayLast(last, log[..|log| - 1]);
      match log[|log| - 1]
      case TxnCommit(_, ts, ops) => NoteCommits(before, ops, ts)
      case _ => before
  }

  /** `recover_from_raft_log`: rebuilds the pending maps, and applies every committed
      write-set a second time on top of the store it finds. */
  function Replay(s: State): State {
    State(ReplayStore(s.store, s.log), ReplayPending(s.log), s.log, ReplayLast(s.lastCommit, s.log))
  }

  // ---------------------------------------------------------------- readSet

  /** Reverse scan: the last version in the list at or below `readTs`. */
  function Lookup(vs: seq<Version>, readTs: Ts): Option<Version> {
    if vs == [] then None
    else if vs[|vs| - 1].ts <= readTs then Some(vs[|vs| - 1])
    else Lookup(vs[..|vs| - 1], readTs)
  }

  function GetAt(s: State, k: Key, readTs: Ts): Option<Value> {
    match Lookup(Stored(s.store, k), readTs)
    case Some(v) => v.value
    case None => None
  }

  predicate IsCommitOf(c: Command, k: Key) {
    c.TxnCommit? && k in WriteKeys(c.ops)
  }

  /** The last value a write-set gives `k`. */
  function LastWrite(ws: seq<Write>, k: Key): Option<Value>
    requires k in WriteKeys(ws)
  {
    if ws[|ws| - 1].key == k then ws[|ws| - 1].value else LastWrite(ws[..|ws| - 1], k)
  }

  /** Reference for a snapshot read: the latest log commit of `k` at or below `readTs`. */
  function LogLookup(log: seq<Command>, k: Key, readTs: Ts): Option<Version> {
    if log == [] then None
    else
      var c := log[|log| - 1];
      if IsCommitOf(c, k) && c.commitTs <= readTs then Some(Version(c.commitTs, LastWrite(c.ops, k)))
      else LogLookup(log[..|log| - 1], k, readTs)
  }

  /** The timestamp of the latest log commit of `k`. */
  function LastCommitTs(log: seq<Command>, k: Key): Option<Ts> {
    if log == [] then None
    else if IsCommitOf(log[|log| - 1], k) then Some(log[|log| - 1].commitTs)
    else LastCommitTs(log[..|log| - 1], k)
  }

  /** The snapshot timestamp of the latest prepare record of `txn`. */
  function PrepareTs(log: seq<Command>, txn: TxnId): Ts {
    if log == [] then 0
    else
      match log[|log| - 1]
      case TxnPrepare(t, readTs, _) => if t == txn then readTs else PrepareTs(log[..|log| - 1], txn)
      case _ => PrepareTs(log[..|log| - 1], txn)
  }

  // ---------------------------------------------------------------- runs of one shard

  datatype Event =
    | PrepareCall(txn: TxnId, readTs: Ts, writes: seq<Write>, readSet: seq<(Key, Ts)>)
    | CommitCall(txn: TxnId, ts: Ts)
    | AbortCall(txn: TxnId)
    | Unrelated
    | Crash

  /** A whole call on the shard, with no other call between its lock sections; `Sections` has
      the steps in between.  A transaction prepares at most one branch here (its id is fresh),
      and commits at a timestamp drawn after its snapshot. */
  ghost predicate Step(s: State, e: Event, s': State) {
    match e
    case PrepareCall(txn, readTs, writes, readSet) =>
      && txn !in s.pending.prepared
      && s' == if Admits(s, txn, readTs, writes, readSet) then Prepare(s, txn, readTs, writes) else s
    case CommitCall(txn, ts) =>
      && (txn in s.pending.prepared ==> PrepareTs(s.log, txn) < ts)
      && s' == if txn in s.pending.prepared then Commit(s, txn, ts) else s
    case AbortCall(txn) => s' == Abort(s, txn)
    case Unrelated => s' == s.(log := s.log + [Other])
    case Crash => s' == Replay(s)
  }

  ghost predicate Run(ss: seq<State>, es: seq<Event>) {
    && |ss| == |es| + 1
    && ss[0] == EMPTY
    && forall i :: 0 <= i < |es| ==> Step(ss[i], es[i], ss[i + 1])
  }

  // ---------------------------------------------------------------- what every state keeps

  /** The lock table is exactly the keys of the prepared write-sets; since a lock has one
      owner, the prepared write-sets are pairwise disjoint. */
  ghost predicate LocksExact(p: Pending) {
    && (forall t, k :: t in p.prepared && k in WriteKeys(p.prepared[t]) ==> k in p.locks && p.locks[k] == t)
    && (forall k :: k in p.locks ==> p.locks[k] in p.prepared && k in WriteKeys(p.prepared[p.locks[k]]))
  }

  /** Commits of one key carry strictly increasing timestamps, in commit order. */
  ghost predicate CommitsIncrease(log: seq<Command>) {
    forall i, j, k :: 0 <= i < j < |log| && IsCommitOf(log[i], k) && IsCommitOf(log[j], k) ==>
      log[i].commitTs < log[j].commitTs
  }

  function LastIn(last: map<Key, Ts>, k: Key): Option<Ts> {
    if k in last then Some(last[k]) else None
  }

  ghost predicate LastTracks(log: seq<Command>, last: map<Key, Ts>) {
    forall k :: LastIn(last, k) == LastCommitTs(log, k)
  }

  /** No lookup can tell the store from the log's commits. */
  ghost predicate StoreMatchesLog(store: map<Key, seq<Version>>, log: seq<Command>) {
    forall k, ts: Ts :: Lookup(Stored(store, k), ts) == LogLookup(log, k, ts)
  }

  ghost predicate SnapshotsHold(s: State) {
    forall t, k :: t in s.pending.prepared && k in WriteKeys(s.pending.prepared[t]) && k in s.lastCommit ==>
      s.lastCommit[k] <= PrepareTs(s.log, t)
  }

  ghost predicate Inv(s: State) {
    && s.pending == ReplayPending(s.log)
    && LocksExact(s.pending)
    && CommitsIncrease(s.log)
    && LastTracks(s.log, s.lastCommit)
    && SnapshotsHold(s)
    && StoreMatchesLog(s.store, s.log)
  }

  // ---------------------------------------------------------------- one record at a time

  lemma WriteKeysSnoc(ws: seq<Write>)
    requires ws != []
    ensures WriteKeys(ws) == WriteKeys(ws[..|ws| - 1]) + {ws[|ws| - 1].key}
  {
    assert ws == ws[..|ws| - 1] + [ws[|ws| - 1]];
  }

  /** A lookup after applying a write-set finds its last write if the timestamp allows it. */
  lemma {:induction false} LookupApplied(vs: seq<Version>, ws: seq<Write>, k: Key, ts: Ts, readTs: Ts)
    ensures Lookup(vs + VersionsOf(ws, k, ts), readTs) ==
            if k in WriteKeys(ws) && ts <= readTs then Some(Version(ts, LastWrite(ws, k))) else Lookup(vs, readTs)
  {
    if ws == [] {
      assert vs + VersionsOf(ws, k, ts) == vs;
    } else {
      WriteKeysSnoc(ws);
      var front := ws[..|ws| - 1];
      LookupApplied(vs, front, k, ts, readTs);
      if ws[|ws| - 1].key == k {
        var all := vs + VersionsOf(ws, k, ts);
        assert all[|all| - 1] == Version(ts, ws[|ws| - 1].value);
        assert all[..|all| - 1] == vs + VersionsOf(front, k, ts);
        if ts > readTs { assert Lookup(all, readTs) == Lookup(vs + VersionsOf(front, k, ts), readTs); }
      } else {
        assert VersionsOf(ws, k, ts) == VersionsOf(front, k, ts);
      }
    }
  }

  lemma {:induction false} VersionsOfOther(ws: seq<Write>, k: Key, ts: Ts)
    requires k !in WriteKeys(ws)
    ensures VersionsOf(ws, k, ts) == []
  {
    if ws != [] {
      WriteKeysSnoc(ws);
      VersionsOfOther(ws[..|ws| - 1], k, ts);
    }
  }

  lemma ApplyLookup(store: map<Key, seq<Version>>, ws: seq<Write>, ts: Ts, k: Key, readTs: Ts)
    ensures Lookup(Stored(ApplyWrites(store, ws, ts), k), readTs) ==
            if k in WriteKeys(ws) && ts <= readTs then Some(Version(ts, LastWrite(ws, k)))
            else Lookup(Stored(store, k), readTs)
  {
    LookupApplied(Stored(store, k), ws, k, ts, readTs);
    if k !in WriteKeys(ws) { VersionsOfOther(ws, k, ts); }
  }

  lemma Snoc(log: seq<Command>, c: Command)
    ensures (log + [c])[..|log + [c]| - 1] == log
  {
  }

  lemma {:induction false} ReplayLookup(store: map<Key, seq<Version>>, log: seq<Command>, k: Key, readTs: Ts)
    ensures Lookup(Stored(ReplayStore(store, log), k), readTs) ==
            if LogLookup(log, k, readTs).Some? then LogLookup(log, k, readTs) else Lookup(Stored(store, k), readTs)
  {
    if log != [] {
      var front, c := log[..|log| - 1], log[|log| - 1];
      ReplayLookup(store, front, k, readTs);
      if c.TxnCommit? { ApplyLookup(ReplayStore(store, front), c.ops, c.commitTs, k, readTs); }
    }
  }

  lemma {:induction false} ReplayLastIn(last: map<Key, Ts>, log: seq<Command>, k: Key)
    ensures LastIn(ReplayLast(last, log), k) ==
            if LastCommitTs(log, k).Some? then LastCommitTs(log, k) else LastIn(last, k)
  {
    if log != [] {
      ReplayLastIn(last, log[..|log| - 1], k);
    }
  }

  lemma {:induction false} CommitAtMostLast(log: seq<Command>, k: Key, i: nat)
    requires CommitsIncrease(log) && i < |log| && IsCommitOf(log[i], k)
    ensures LastCommitTs(log, k).Some? && log[i].commitTs <= LastCommitTs(log, k).value
  {
    var front := log[..|log| - 1];
    if !IsCommitOf(log[|log| - 1], k) {
      CommitAtMostLast(front, k, i);
    }
  }

  // ---------------------------------------------------------------- each call keeps the invariant

  lemma LockAllExact(p: Pending, txn: TxnId, ws: seq<Write>)
    requires LocksExact(p) && txn !in p.prepared && NoForeignLock(p.locks, ws, txn)
    ensures LocksExact(Pending(p.prepared[txn := ws], LockAll(p.locks, ws, txn)))
  {
  }

  lemma PreparedDisjoint(p: Pending, a: TxnId, b: TxnId, k: Key)
    requires LocksExact(p) && a in p.prepared && b in p.prepared && a != b
    requires k in WriteKeys(p.prepared[a])
    ensures k in p.locks && p.locks[k] == a && k !in WriteKeys(p.prepared[b])
  {
  }

  lemma ReleaseExact(p: Pending, txn: TxnId)
    requires LocksExact(p)
    ensures LocksExact(Release(p, txn))
  {
    if txn in p.prepared {
      var p' := Release(p, txn);
      forall t, k | t in p'.prepared && k in WriteKeys(p'.prepared[t]) ensures k in p'.locks && p'.locks[k] == t {
        PreparedDisjoint(p, t, txn, k);
      }
    }
  }

  lemma AppendTs(log: seq<Command>, c: Command, txn: TxnId)
    ensures PrepareTs(log + [c], txn) == if c.TxnPrepare? && c.txn == txn then c.readTs else PrepareTs(log, txn)
  {
    Snoc(log, c);
  }

  /** Appending a record that is not a commit keeps everything that is about commits. */
  lemma AppendOther(s: State, c: Command)
    requires !c.TxnCommit? && CommitsIncrease(s.log) && LastTracks(s.log, s.lastCommit)
    requires StoreMatchesLog(s.store, s.log)
    ensures CommitsIncrease(s.log + [c]) && LastTracks(s.log + [c], s.lastCommit)
    ensures StoreMatchesLog(s.store, s.log + [c])
  {
    var log := s.log + [c];
    Snoc(s.log, c);
    forall k ensures LastIn(s.lastCommit, k) == LastCommitTs(log, k) {
      assert LastCommitTs(log, k) == LastCommitTs(s.log, k);
    }
    forall k, ts: Ts ensures Lookup(Stored(s.store, k), ts) == LogLookup(log, k, ts) {
      assert LogLookup(log, k, ts) == LogLookup(s.log, k, ts);
    }
  }

  lemma PrepareSnapshots(s: State, txn: TxnId, readTs: Ts, writes: seq<Write>, readSet: seq<(Key, Ts)>)
    requires SnapshotsHold(s) && Admits(s, txn, readTs, writes, readSet)
    ensures SnapshotsHold(Prepare(s, txn, readTs, writes))
  {
    var s' := Prepare(s, txn, readTs, writes);
    forall t, k | t in s'.pending.prepared && k in WriteKeys(s'.pending.prepared[t]) && k in s'.lastCommit
      ensures s'.lastCommit[k] <= PrepareTs(s'.log, t)
    {
      AppendTs(s.log, TxnPrepare(txn, readTs, writes), t);
    }
  }

  lemma PrepareKeepsInv(s: State, txn: TxnId, readTs: Ts, writes: seq<Write>, readSet: seq<(Key, Ts)>)
    requires Inv(s) && txn !in s.pending.prepared && Admits(s, txn, readTs, writes, readSet)
    ensures Inv(Prepare(s, txn, readTs, writes))
  {
    var c := TxnPrepare(txn, readTs, writes);
    LockAllExact(s.pending, txn, writes);
    AppendOther(s, c);
    PrepareSnapshots(s, txn, readTs, writes, readSet);
    Snoc(s.log, c);
  }

  lemma CommitsStayIncreasing(log: seq<Command>, last: map<Key, Ts>, c: Command)
    requires c.TxnCommit? && CommitsIncrease(log) && LastTracks(log, last)
    requires forall k :: k in WriteKeys(c.ops) && k in last ==> last[k] < c.commitTs
    ensures CommitsIncrease(log + [c])
  {
    forall i, k | 0 <= i < |log| && IsCommitOf(log[i], k) && IsCommitOf(c, k) ensures log[i].commitTs < c.commitTs {
      CommitAtMostLast(log, k, i);
      assert LastIn(last, k) == LastCommitTs(log, k);
    }
  }

  lemma CommitLast(log: seq<Command>, last: map<Key, Ts>, c: Command)
    requires c.TxnCommit? && LastTracks(log, last)
    ensures LastTracks(log + [c], NoteCommits(last, c.ops, c.commitTs))
  {
    Snoc(log, c);
    forall k ensures LastIn(NoteCommits(last, c.ops, c.commitTs), k) == LastCommitTs(log + [c], k) {
      assert LastIn(last, k) == LastCommitTs(log, k);
    }
  }

  lemma CommitStore(store: map<Key, seq<Version>>, log: seq<Command>, c: Command)
    requires c.TxnCommit? && StoreMatchesLog(store, log)
    ensures StoreMatchesLog(ApplyWrites(store, c.ops, c.commitTs), log + [c])
  {
    Snoc(log, c);
    forall k, ts: Ts
      ensures Lookup(Stored(ApplyWrites(store, c.ops, c.commitTs), k), ts) == LogLookup(log + [c], k, ts)
    {
      ApplyLookup(store, c.ops, c.commitTs, k, ts);
      assert Lookup(Stored(store, k), ts) == LogLookup(log, k, ts);
    }
  }

  lemma CommitSnapshots(s: State, txn: TxnId, ts: Ts)
    requires LocksExact(s.pending) && SnapshotsHold(s) && txn in s.pending.prepared
    ensures SnapshotsHold(Commit(s, txn, ts))
  {
    var s', ws := Commit(s, txn, ts), s.pending.prepared[txn];
    forall t, k | t in s'.pending.prepared && k in WriteKeys(s'.pending.prepared[t]) && k in s'.lastCommit
      ensures s'.lastCommit[k] <= PrepareTs(s'.log, t)
    {
      AppendTs(s.log, TxnCommit(txn, ts, ws), t);
      PreparedDisjoint(s.pending, t, txn, k);
      assert k in s.lastCommit && s'.lastCommit[k] == s.lastCommit[k];
    }
  }

  lemma CommitKeepsInv(s: State, txn: TxnId, ts: Ts)
    requires Inv(s) && txn in s.pending.prepared && PrepareTs(s.log, txn) < ts
    ensures Inv(Commit(s, txn, ts))
  {
    var c := TxnCommit(txn, ts, s.pending.prepared[txn]);
    ReleaseExact(s.pending, txn);
    CommitsStayIncreasing(s.log, s.lastCommit, c);
    CommitLast(s.log, s.lastCommit, c);
    CommitStore(s.store, s.log, c);
    CommitSnapshots(s, txn, ts);
    Snoc(s.log, c);
  }

  lemma AbortKeepsInv(s: State, txn: TxnId)
    requires Inv(s)
    ensures Inv(Abort(s, txn))
  {
    var c := TxnAbort(txn);
    ReleaseExact(s.pending, txn);
    AppendOther(s, c);
    forall t ensures PrepareTs(s.log + [c], t) == PrepareTs(s.log, t) {
      AppendTs(s.log, c, t);
    }
    Snoc(s.log, c);
  }

  lemma UnrelatedKeepsInv(s: State)
    requires Inv(s)
    ensures Inv(s.(log := s.log + [Other]))
  {
    AppendOther(s, Other);
    forall t ensures PrepareTs(s.log + [Other], t) == PrepareTs(s.log, t) {
      AppendTs(s.log, Other, t);
    }
    Snoc(s.log, Other);
  }

  lemma ReplayKeepsInv(s: State)
    requires Inv(s)
    ensures Inv(Replay(s))
    ensures Replay(s).pending == s.pending
    ensures Replay(s).lastCommit == s.lastCommit
    ensures forall k, ts: Ts :: GetAt(Replay(s), k, ts) == GetAt(s, k, ts)
  {
    var s' := Replay(s);
    forall k, ts: Ts
      ensures Lookup(Stored(s'.store, k), ts) == LogLookup(s.log, k, ts)
      ensures Lookup(Stored(s.store, k), ts) == LogLookup(s.log, k, ts)
    {
      ReplayLookup(s.store, s.log, k, ts);
    }
    forall k ensures LastIn(s'.lastCommit, k) == LastIn(s.lastCommit, k) {
      ReplayLastIn(s.lastCommit, s.log, k);
      assert LastIn(s.lastCommit, k) == LastCommitTs(s.log, k);
    }
    SameLast(s'.lastCommit, s.lastCommit);
  }

  lemma SameLast(a: map<Key, Ts>, b: map<Key, Ts>)
    requires forall k :: LastIn(a, k) == LastIn(b, k)
    ensures a == b
  {
    forall k ensures k in a <==> k in b ensures k in a ==> a[k] == b[k] {
      assert LastIn(a, k) == LastIn(b, k);
    }
  }

  lemma StepKeepsInv(s: State, e: Event, s': State)
    requires Inv(s) && Step(s, e, s')
    ensures Inv(s')
  {
    match e
    case PrepareCall(txn, readTs, writes, readSet) =>
      if Admits(s, txn, readTs, writes, readSet) { PrepareKeepsInv(s, txn, readTs, writes, readSet); }
    case CommitCall(txn, ts) =>
      if txn in s.pending.prepared { CommitKeepsInv(s, txn, ts); }
    case AbortCall(txn) => AbortKeepsInv(s, txn);
    case Unrelated => UnrelatedKeepsInv(s);
    case Crash => ReplayKeepsInv(s);
  }

  lemma {:induction false} RunKeepsInv(ss: seq<State>, es: seq<Event>, n: nat)
    requires Run(ss, es) && n < |ss|
    ensures Inv(ss[n])
  {
    if n > 0 {
      RunKeepsInv(ss, es, n - 1);
      StepKeepsInv(ss[n - 1], es[n - 1], ss[n]);
    }
  }

  /** Main result for one shard, for every reachable state. */
  lemma ReachableShard(ss: seq<State>, es: seq<Event>, n: nat)
    requires Run(ss, es) && n < |ss|
    ensures LocksExact(ss[n].pending)
    ensures CommitsIncrease(ss[n].log)
    ensures Replay(ss[n]).pending == ss[n].pending
    ensures forall k, ts: Ts :: GetAt(Replay(ss[n]), k, ts) == GetAt(ss[n], k, ts)
  {
    RunKeepsInv(ss, es, n);
    ReplayKeepsInv(ss[n]);
  }

  // ---------------------------------------------------------------- what a prepare is refused for

  /** The log has a commit of `k` after `readTs`. */
  ghost predicate CommittedAfter(log: seq<Command>, k: Key, readTs: Ts) {
    exists j :: CommitsAfter(log, j, k, readTs)
  }

  ghost predicate CommitsAfter(log: seq<Command>, j: int, k: Key, readTs: Ts) {
    && 0 <= j < |log| && log[j].TxnCommit? && log[j].commitTs > readTs
    && exists w :: 0 <= w < |log[j].ops| && log[j].ops[w].key == k
  }

  lemma {:induction false} LastCommitIsLogged(log: seq<Command>, k: Key) returns (j: nat)
    requires LastCommitTs(log, k).Some?
    ensures j < |log| && IsCommitOf(log[j], k) && log[j].commitTs == LastCommitTs(log, k).value
  {
    j := |log| - 1;
    if !IsCommitOf(log[|log| - 1], k) {
      j := LastCommitIsLogged(log[..|log| - 1], k);
    }
  }

  /** Validation of one key asks exactly whether the log has a later commit of it. */
  lemma NotesTellCommits(log: seq<Command>, last: map<Key, Ts>, k: Key, readTs: Ts)
    requires CommitsIncrease(log) && LastTracks(log, last)
    ensures CommittedAfter(log, k, readTs) <==> k in last && last[k] > readTs
  {
    assert LastIn(last, k) == LastCommitTs(log, k);
    if k in last && last[k] > readTs {
      var j := LastCommitIsLogged(log, k);
      assert CommitsAfter(log, j, k, readTs);
    }
    if j :| CommitsAfter(log, j, k, readTs) {
      CommitAtMostLast(log, k, j);
    }
  }

  /** A read or a write of the request was committed after its snapshot. */
  ghost predicate Stale(log: seq<Command>, readTs: Ts, writes: seq<Write>, readSet: seq<(Key, Ts)>) {
    || (exists i :: 0 <= i < |readSet| && CommittedAfter(log, readSet[i].0, readTs))
    || (exists i :: 0 <= i < |writes| && CommittedAfter(log, writes[i].key, readTs))
  }

  /** A write of the request is a write of another prepared transaction. */
  ghost predicate Contended(prepared: map<TxnId, seq<Write>>, txn: TxnId, writes: seq<Write>) {
    exists i, u, w :: 0 <= i < |writes| && u in prepared && u != txn && 0 <= w < |prepared[u]| &&
      prepared[u][w].key == writes[i].key
  }

  lemma ValidExactly(s: State, readTs: Ts, writes: seq<Write>, readSet: seq<(Key, Ts)>)
    requires CommitsIncrease(s.log) && LastTracks(s.log, s.lastCommit)
    ensures OccValid(s.lastCommit, readTs, ReadKeys(readSet) + WriteKeys(writes)) <==>
      !Stale(s.log, readTs, writes, readSet)
  {
    forall k ensures CommittedAfter(s.log, k, readTs) <==> k in s.lastCommit && s.lastCommit[k] > readTs {
      NotesTellCommits(s.log, s.lastCommit, k, readTs);
    }
    forall i | 0 <= i < |readSet| ensures readSet[i].0 in ReadKeys(readSet) {}
    forall i | 0 <= i < |writes| ensures writes[i].key in WriteKeys(writes) {}
  }

  lemma LocksTellContention(p: Pending, txn: TxnId, writes: seq<Write>)
    requires LocksExact(p)
    ensures NoForeignLock(p.locks, writes, txn) <==> !Contended(p.prepared, txn, writes)
  {
    if i, u, w :| 0 <= i < |writes| && u in p.prepared && u != txn && 0 <= w < |p.prepared[u]| &&
                  p.prepared[u][w].key == writes[i].key {
      assert writes[i].key in WriteKeys(p.prepared[u]) && writes[i].key in WriteKeys(writes);
    }
    if k :| k in WriteKeys(writes) && k in p.locks && p.locks[k] != txn {
      var i :| 0 <= i < |writes| && writes[i].key == k;
      var u := p.locks[k];
      var w :| 0 <= w < |p.prepared[u]| && p.prepared[u][w].key == k;
    }
  }

  /** In every run, a prepare is accepted exactly when none of the keys it read or writes was
      committed after its snapshot and no other prepared transaction writes one of its keys. */
  lemma PrepareDecision(ss: seq<State>, es: seq<Event>, n: nat)
    requires Run(ss, es) && n < |es| && es[n].PrepareCall?
    ensures var e, s := es[n], ss[n];
      var ok := !Stale(s.log, e.readTs, e.writes, e.readSet) && !Contended(s.pending.prepared, e.txn, e.writes);
      ss[n + 1] == if ok then Prepare(s, e.txn, e.readTs, e.writes) else s
  {
    RunKeepsInv(ss, es, n);
    var e, s := es[n], ss[n];
    assert Step(ss[n], es[n], ss[n + 1]);
    ValidExactly(s, e.readTs, e.writes, e.readSet);
    LocksTellContention(s.pending, e.txn, e.writes);
  }

  lemma {:induction false} LogLookupNewest(log: seq<Command>, k: Key, readTs: Ts)
    requires CommitsIncrease(log)
    ensures LogLookup(log, k, readTs).None? ==>
      forall i :: 0 <= i < |log| && IsCommitOf(log[i], k) ==> log[i].commitTs > readTs
    ensures LogLookup(log, k, readTs).Some? ==>
      exists i :: IsNewest(log, k, readTs, i) &&
                  LogLookup(log, k, readTs).value == Version(log[i].commitTs, LastWrite(log[i].ops, k))
  {
    if log != [] {
      var front, n := log[..|log| - 1], |log| - 1;
      if IsCommitOf(log[n], k) && log[n].commitTs <= readTs {
        assert IsNewest(log, k, readTs, n);
      } else {
        LogLookupNewest(front, k, readTs);
        if LogLookup(front, k, readTs).Some? {
          var i :| IsNewest(front, k, readTs, i) &&
                   LogLookup(front, k, readTs).value == Version(front[i].commitTs, LastWrite(front[i].ops, k));
          assert IsNewest(log, k, readTs, i);
        }
      }
    }
  }

  /** Record `i` committed `k` at or below `readTs`, and no other such commit is newer. */
  ghost predicate IsNewest(log: seq<Command>, k: Key, readTs: Ts, i: int) {
    && 0 <= i < |log| && IsCommitOf(log[i], k) && log[i].commitTs <= readTs
    && forall j :: 0 <= j < |log| && IsCommitOf(log[j], k) && log[j].commitTs <= readTs ==>
         log[j].commitTs <= log[i].commitTs
  }

  /** A snapshot read returns the newest committed version at or below its timestamp. */
  ghost predicate ReadsNewest(s: State, k: Key, readTs: Ts) {
    || (&& (forall i :: 0 <= i < |s.log| && IsCommitOf(s.log[i], k) ==> s.log[i].commitTs > readTs)
        && GetAt(s, k, readTs) == None)
    || (exists i :: IsNewest(s.log, k, readTs, i) && GetAt(s, k, readTs) == LastWrite(s.log[i].ops, k))
  }

  lemma InvReadsNewest(s: State, k: Key, readTs: Ts)
    requires Inv(s)
    ensures ReadsNewest(s, k, readTs)
  {
    LogLookupNewest(s.log, k, readTs);
    assert Lookup(Stored(s.store, k), readTs) == LogLookup(s.log, k, readTs);
  }

  lemma GetAtNewest(ss: seq<State>, es: seq<Event>, n: nat, k: Key, readTs: Ts)
    requires Run(ss, es) && n < |ss|
    ensures ReadsNewest(ss[n], k, readTs)
  {
    RunKeepsInv(ss, es, n);
    InvReadsNewest(ss[n], k, readTs);
  }

  /** Two branches of one transaction on one shard: the second prepare replaces the first
      write-set but not its locks, so the lock table stays exact exactly when the new
      write-set covers the old one. */
  lemma SecondBranch(p: Pending, txn: TxnId, ws: seq<Write>)
    requires LocksExact(p) && txn in p.prepared && NoForeignLock(p.locks, ws, txn)
    ensures LocksExact(Pending(p.prepared[txn := ws], LockAll(p.locks, ws, txn))) <==>
            WriteKeys(p.prepared[txn]) <= WriteKeys(ws)
  {
    var p' := Pending(p.prepared[txn := ws], LockAll(p.locks, ws, txn));
    forall k | k in WriteKeys(p.prepared[txn]) && k !in WriteKeys(ws) ensures !LocksExact(p') {
      assert k in p'.locks && p'.locks[k] == txn && p'.prepared[txn] == ws;
    }
  }

  /** Such a pair of branches is reachable, and its commit leaves the first branch's lock
      behind for good: nothing is prepared any more, and replaying the log agrees. */
  lemma SecondBranchLeavesLock() returns (ss: seq<State>, es: seq<Event>, second: State)
    ensures Run(ss, es)
    ensures var s := ss[|ss| - 1];
      && 1 in s.pending.prepared && Admits(s, 1, 1, [Write(1.0, Some("b"))], [])
      && second == Prepare(s, 1, 1, [Write(1.0, Some("b"))]) && 1 in second.pending.prepared
      && Commit(second, 1, 2).pending == Pending(map[], map[0.0 := 1])
      && ReplayPending(Commit(second, 1, 2).log) == Pending(map[], map[0.0 := 1])
  {
    var a, b := [Write(0.0, Some("a"))], [Write(1.0, Some("b"))];
    assert a[0].key in WriteKeys(a) && b[0].key in WriteKeys(b);
    assert WriteKeys(a) == {0.0} && WriteKeys(b) == {1.0};
    var s := Prepare(EMPTY, 1, 1, a);
    ss, es := [EMPTY, s], [PrepareCall(1, 1, a, [])];
    second := Prepare(s, 1, 1, b);
    PrepareReplays(EMPTY, 1, 1, a);
    PrepareReplays(s, 1, 1, b);
    CommitReplays(second, 1, 2);
  }

  lemma PrepareReplays(s: State, txn: TxnId, readTs: Ts, writes: seq<Write>)
    requires s.pending == ReplayPending(s.log)
    ensures var s' := Prepare(s, txn, readTs, writes); s'.pending == ReplayPending(s'.log)
  {
    Snoc(s.log, TxnPrepare(txn, readTs, writes));
  }

  lemma CommitReplays(s: State, txn: TxnId, ts: Ts)
    requires s.pending == ReplayPending(s.log) && txn in s.pending.prepared
    ensures var s' := Commit(s, txn, ts); s'.pending == ReplayPending(s'.log)
  {
    Snoc(s.log, TxnCommit(txn, ts, s.pending.prepared[txn]));
  }
}
