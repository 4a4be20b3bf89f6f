/** The shard object of src/dtxn.rs, with its loops, proved against the functions of `Shard`. */
module Participant {
  import opened Keys
  import opened Shard

  class LocalShard {
    var store: map<Key, seq<Version>>
    var prepared: map<TxnId, seq<Write>>
    var locks: map<Key, TxnId>
    var raftLog: seq<Command>
    var lastCommit: map<Key, Ts>
    var failPrepare: bool
    var crashAfterPrepare: bool

    ghost function Model(): State
      reads this
    {
      State(store, Pending(prepared, locks), raftLog, lastCommit)
    }

    constructor ()
      ensures Model() == EMPTY && !failPrepare && !crashAfterPrepare
    {
      store, prepared, locks, raftLog, lastCommit := map[], map[], map[], [], map[];
      failPrepare, crashAfterPrepare := false, false;
    }

    /** Phase 1.  The write-set is durable and locked before the call can succeed; with the
        crash flag up it is durable and locked although the call reports a failure. */
    method Prepare(txn: TxnId, readTs: Ts, writes: seq<Write>, readSet: seq<(Key, Ts)>) returns (r: Outcome)
      modifies this`prepared, this`locks, this`raftLog
      ensures failPrepare ==> r == Unavailable && Model() == old(Model())
      ensures !failPrepare && !Admits(old(Model()), txn, readTs, writes, readSet) ==>
        r == Conflict && Model() == old(Model())
      ensures !failPrepare && Admits(old(Model()), txn, readTs, writes, readSet) ==>
        && Model() == Shard.Prepare(old(Model()), txn, readTs, writes)
        && r == if crashAfterPrepare then Unavailable else Ok
      ensures r == Conflict <==> !failPrepare && old(
        || (exists i :: 0 <= i < |readSet| && NotedAfter(readSet[i].0, readTs))
        || (exists i :: 0 <= i < |writes| && (NotedAfter(writes[i].key, readTs) || LockedByOther(writes[i].key, txn))))
    {
      if failPrepare { return Unavailable; }
      var valid := OccValidate(readTs, writes, readSet);
      if !valid { return Conflict; }
      for i := 0 to |writes|
        invariant forall j :: 0 <= j < i ==> writes[j].key in locks ==> locks[writes[j].key] == txn
      {
        if writes[i].key in locks && locks[writes[i].key] != txn { return Conflict; }
      }
      Lock(writes, txn);
      raftLog := raftLog + [TxnPrepare(txn, readTs, writes)];
      prepared := prepared[txn := writes];
      r := if crashAfterPrepare then Unavailable else Ok;
    }

    predicate NotedAfter(k: Key, readTs: Ts)
      reads this
    {
      k in lastCommit && lastCommit[k] > readTs
    }

    predicate LockedByOther(k: Key, txn: TxnId)
      reads this
    {
      k in locks && locks[k] != txn
    }

    method OccValidate(readTs: Ts, writes: seq<Write>, readSet: seq<(Key, Ts)>) returns (ok: bool)
      ensures ok <==>
        && (forall i :: 0 <= i < |readSet| ==> !NotedAfter(readSet[i].0, readTs))
        && (forall i :: 0 <= i < |writes| ==> !NotedAfter(writes[i].key, readTs))
      ensures ok <==> OccValid(lastCommit, readTs, ReadKeys(readSet) + WriteKeys(writes))
    {
      for i := 0 to |readSet|
        invariant forall j :: 0 <= j < i ==> readSet[j].0 in lastCommit ==> lastCommit[readSet[j].0] <= readTs
      {
        var k := readSet[i].0;
        if k in lastCommit && lastCommit[k] > readTs {
          assert k in ReadKeys(readSet) + WriteKeys(writes);
          return false;
        }
      }
      for i := 0 to |writes|
        invariant forall j :: 0 <= j < i ==> writes[j].key in lastCommit ==> lastCommit[writes[j].key] <= readTs
      {
        if writes[i].key in lastCommit && lastCommit[writes[i].key] > readTs {
          assert writes[i].key in ReadKeys(readSet) + WriteKeys(writes);
          return false;
        }
      }
      ok := true;
    }

    method Lock(writes: seq<Write>, txn: TxnId)
      modifies this`locks
      ensures locks == LockAll(old(locks), writes, txn)
    {
      assert locks == LockAll(locks, [], txn);
      for i := 0 to |writes|
        invariant locks == LockAll(old(locks), writes[..i], txn)
      {
        WriteKeysPrefix(writes, i);
        locks := locks[writes[i].key := txn];
      }
      assert writes[..|writes|] == writes;
    }

    method Unlock(writes: seq<Write>)
      modifies this`locks
      ensures locks == UnlockAll(old(locks), writes)
    {
      for i := 0 to |writes|
        invariant locks == UnlockAll(old(locks), writes[..i])
      {
        WriteKeysPrefix(writes, i);
        locks := locks - {writes[i].key};
      }
      assert writes[..|writes|] == writes;
    }

    method Apply(writes: seq<Write>, ts: Ts)
      modifies this`store, this`lastCommit
      ensures store == ApplyWrites(old(store), writes, ts)
      ensures lastCommit == NoteCommits(old(lastCommit), writes, ts)
    {
      WriteNothing(store, lastCommit, ts);
      for i := 0 to |writes|
        invariant store == ApplyWrites(old(store), writes[..i], ts)
        invariant lastCommit == NoteCommits(old(lastCommit), writes[..i], ts)
      {
        var k := writes[i].key;
        WriteOneMore(old(store), writes, i, ts);
        NoteOneMore(old(lastCommit), writes, i, ts);
        store := store[k := Stored(store, k) + [Version(ts, writes[i].value)]];
        lastCommit := lastCommit[k := ts];
      }
      assert writes[..|writes|] == writes;
    }

    /** Phase 2. */
    method Commit(txn: TxnId, ts: Ts) returns (r: Outcome)
      modifies this`store, this`prepared, this`locks, this`raftLog, this`lastCommit
      ensures crashAfterPrepare ==> r == Unavailable && Model() == old(Model())
      ensures !crashAfterPrepare && txn !in old(prepared) ==> r == UnknownTxn && Model() == old(Model())
      ensures !crashAfterPrepare && txn in old(prepared) ==>
        r == Ok && Model() == Shard.Commit(old(Model()), txn, ts)
    {
      if crashAfterPrepare { return Unavailable; }
      if txn !in prepared { return UnknownTxn; }
      var writes := prepared[txn];
      prepared := prepared - {txn};
      Unlock(writes);
      raftLog := raftLog + [TxnCommit(txn, ts, writes)];
      Apply(writes, ts);
      r := Ok;
    }

    method Abort(txn: TxnId) returns (r: Outcome)
      modifies this`prepared, this`locks, this`raftLog
      ensures crashAfterPrepare ==> r == Unavailable && Model() == old(Model())
      ensures !crashAfterPrepare ==> r == Ok && Model() == Shard.Abort(old(Model()), txn)
    {
      if crashAfterPrepare { return Unavailable; }
      if txn in prepared {
        var writes := prepared[txn];
        prepared := prepared - {txn};
        Unlock(writes);
      }
      raftLog := raftLog + [TxnAbort(txn)];
      r := Ok;
    }

    method RecoverFromRaftLog()
      modifies this`store, this`prepared, this`locks, this`lastCommit
      ensures Model() == Replay(old(Model()))
    {
      prepared, locks := map[], map[];
      for n := 0 to |raftLog|
        invariant raftLog == old(raftLog)
        invariant Pending(prepared, locks) == ReplayPending(raftLog[..n])
        invariant store == ReplayStore(old(store), raftLog[..n])
        invariant lastCommit == ReplayLast(old(lastCommit), raftLog[..n])
      {
        assert raftLog[..n + 1][..n] == raftLog[..n];
        match raftLog[n]
        case TxnPrepare(txn, _, ops) =>
          Lock(ops, txn);
          prepared := prepared[txn := ops];
        case TxnCommit(txn, ts, ops) =>
          prepared := prepared - {txn};
          Unlock(ops);
          Apply(ops, ts);
        case TxnAbort(txn) =>
          if txn in prepared {
            var writes := prepared[txn];
            prepared := prepared - {txn};
            Unlock(writes);
          }
        case Other =>
      }
      assert raftLog[..|raftLog|] == raftLog;
    }

    method GetAt(k: Key, readTs: Ts) returns (v: Option<Value>)
      ensures v == Shard.GetAt(Model(), k, readTs)
    {
      if k !in store { return None; }
      var versions := store[k];
      var i := |versions|;
      assert versions[..i] == versions;
      while i > 0
        invariant 0 <= i <= |versions|
        invariant Lookup(versions, readTs) == Lookup(versions[..i], readTs)
      {
        assert versions[..i][..i - 1] == versions[..i - 1];
        if versions[i - 1].ts <= readTs { return versions[i - 1].value; }
        i := i - 1;
      }
      v := None;
    }
  }

  lemma WriteKeysPrefix(ws: seq<Write>, i: nat)
    requires i < |ws|
    ensures WriteKeys(ws[..i + 1]) == WriteKeys(ws[..i]) + {ws[i].key}
  {
    WriteKeysSnoc(ws[..i + 1]);
    assert ws[..i + 1][..i] == ws[..i];
  }

  lemma WriteNothing(store: map<Key, seq<Version>>, last: map<Key, Ts>, ts: Ts)
    ensures ApplyWrites(store, [], ts) == store && NoteCommits(last, [], ts) == last
  {
    assert WriteKeys([]) == {};
    assert forall k :: k in store ==> store[k] + VersionsOf([], k, ts) == store[k];
  }

  lemma NoteOneMore(last: map<Key, Ts>, ws: seq<Write>, i: nat, ts: Ts)
    requires i < |ws|
    ensures NoteCommits(last, ws[..i + 1], ts) == NoteCommits(last, ws[..i], ts)[ws[i].key := ts]
  {
    WriteKeysPrefix(ws, i);
  }

  lemma WriteOneMore(store: map<Key, seq<Version>>, ws: seq<Write>, i: nat, ts: Ts)
    requires i < |ws|
    ensures
      var k, before := ws[i].key, ApplyWrites(store, ws[..i], ts);
      ApplyWrites(store, ws[..i + 1], ts) == before[k := Stored(before, k) + [Version(ts, ws[i].value)]]
  {
    var now, front := ws[..i + 1], ws[..i];
    WriteKeysPrefix(ws, i);
    var k, before := ws[i].key, ApplyWrites(store, front, ts);
    var after := ApplyWrites(store, now, ts);
    if k !in before { VersionsOfOther(front, k, ts); }
    forall q | q in after ensures after[q] == before[k := Stored(before, k) + [Version(ts, ws[i].value)]][q] {
      VersionsOneMore(ws, i, q, ts);
    }
  }

  lemma VersionsOneMore(ws: seq<Write>, i: nat, k: Key, ts: Ts)
    requires i < |ws|
    ensures VersionsOf(ws[..i + 1], k, ts) ==
            VersionsOf(ws[..i], k, ts) + (if ws[i].key == k then [Version(ts, ws[i].value)] else [])
  {
    assert ws[..i + 1][..i] == ws[..i];
  }
}
