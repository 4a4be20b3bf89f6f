/** The client transaction service as the program runs it: session maps updated in place,
    and loops for validation, for the last-commit index and for the watermark. */
module ClientService {
  import opened Keys
  import opened Mvcc
  import Occ

  datatype Error = UnknownTxn | Conflict | NotCommitted
  datatype Result<T> = Ok(value: T) | Err(error: Error)

  lemma HasMember(keys: set<Key>)
    ensures keys == {} || exists k :: k in keys
  {
    if forall k :: k !in keys { assert keys == {}; }
  }

  /** What `txn_commit` answers; `taken` tells whether the log accepted the batch. */
  function CommitReply(s: Occ.System, id: nat, taken: bool): Result<Ts> {
    if id !in s.sessions then Err(UnknownTxn)
    else if s.sessions[id].writes == map[] then Ok(s.sessions[id].readTs)
    else if !Occ.Validates(s.lastCommit, s.sessions[id]) then Err(Conflict)
    else if taken then Ok(s.lastApplied + 1) else Err(NotCommitted)
  }

  class Service {
    var store: Store
    var sessions: map<nat, Occ.Session>
    var active: map<nat, Ts>            // the epoch manager's table
    var nextId: nat
    var lastCommit: map<Key, Ts>
    var lastApplied: Ts
    ghost var published: set<Ts>
    ghost var history: seq<Occ.Txn>

    ghost predicate Valid()
      reads this
    {
      active.Keys == sessions.Keys && forall id :: id in sessions ==> active[id] == sessions[id].readTs
    }

    /** Between whole calls, no `begin` and no publishing call is half done. */
    ghost function Model(): Occ.System
      reads this
    {
      Occ.System(store, sessions, nextId, lastCommit, lastApplied, published, history, map[], map[])
    }

    constructor ()
      ensures Valid() && Model() == Occ.INITIAL
    {
      store, sessions, active, nextId, lastCommit, lastApplied := map[], map[], map[], 0, map[], 0;
      published, history := {}, [];
    }

    /** `EpochManager::watermark`. */
    method Oldest() returns (oldest: Option<Ts>)
      ensures active == map[] <==> oldest == None
      ensures oldest.Some? ==> oldest.value in active.Values && forall id :: id in active ==> oldest.value <= active[id]
    {
      oldest := None;
      var todo := active.Keys;
      while todo != {}
        invariant todo <= active.Keys
        invariant oldest == None ==> todo == active.Keys
        invariant oldest.Some? ==> oldest.value in active.Values
        invariant oldest.Some? ==> forall id :: id in active && id !in todo ==> oldest.value <= active[id]
        decreases |todo|
      {
        var id :| id in todo;
        todo := todo - {id};
        assert active[id] in active.Values;
        if oldest == None || active[id] < oldest.value { oldest := Some(active[id]); }
      }
    }

    method PublishWatermark()
      requires Valid()
      modifies this`published
      ensures Valid() && Model() == Occ.Publish(old(Model()))
    {
      var oldest := Oldest();
      var watermark := if oldest.Some? then oldest.value else lastApplied + 1;
      ghost var open := set id | id in sessions :: sessions[id].readTs;
      assert open == active.Values by {
        forall id | id in sessions ensures sessions[id].readTs in open {}
      }
      assert watermark == Occ.Watermark(sessions, lastApplied);
      published := published + {watermark};
    }

    method BeginTxn() returns (id: nat, readTs: Ts)
      requires Valid()
      modifies this
      ensures Valid() && Model() == Occ.Begin(old(Model()))
      ensures id == nextId && readTs == lastApplied
    {
      readTs := lastApplied;
      nextId := nextId + 1;
      id := nextId;
      active := active[id := readTs];
      sessions := sessions[id := Occ.Session(readTs, map[], map[], map[])];
      PublishWatermark();
    }

    method TxnGet(id: nat, k: Key) returns (r: Result<Option<Value>>)
      requires Valid()
      modifies this`sessions
      ensures Valid()
      ensures id !in old(sessions) ==> r == Err(UnknownTxn) && Model() == old(Model())
      ensures id in old(sessions) ==>
        && r == Ok(Occ.Answer(store, old(sessions)[id], k))
        && Occ.Step(old(Model()), Occ.Get(id, k), Model())
    {
      if id !in sessions { return Err(UnknownTxn); }
      var x := sessions[id];
      if k in x.writes {
        assert sessions[id := x] == sessions;
        return Ok(x.writes[k]);
      }
      r := Ok(ReadAt(store, k, x.readTs));
      sessions := sessions[id := Occ.Recorded(store, x, k)];
    }

    /** `txn_put` with a value, `txn_delete` with None. */
    method TxnWrite(id: nat, k: Key, op: Option<Value>) returns (r: Result<()>)
      requires Valid()
      modifies this`sessions
      ensures Valid()
      ensures id !in old(sessions) ==> r == Err(UnknownTxn) && Model() == old(Model())
      ensures id in old(sessions) ==> r == Ok(()) && Occ.Step(old(Model()), Occ.Write(id, k, op), Model())
    {
      if id !in sessions { return Err(UnknownTxn); }
      var x := sessions[id];
      if k !in x.readSet {
        x := x.(readSet := x.readSet[k := SeenTs(store, k, x.readTs)],
                observed := x.observed[k := ReadAt(store, k, x.readTs)]);
      }
      x := x.(writes := x.writes[k := op]);
      sessions := sessions[id := x];
      r := Ok(());
    }

    /** The validation loop of `prepare_txn_commit`: read keys, then written keys. */
    method Validate(x: Occ.Session) returns (ok: bool)
      ensures ok <==> Occ.Validates(lastCommit, x)
    {
      var keys := x.readSet.Keys + x.writes.Keys;
      var todo := keys;
      while todo != {}
        invariant todo <= keys
        invariant forall k :: k in keys && k !in todo && k in lastCommit ==> lastCommit[k] <= x.readTs
        decreases |todo|
      {
        HasMember(todo);
        var k :| k in todo;
        todo := todo - {k};
        if k in lastCommit && lastCommit[k] > x.readTs { return false; }
      }
      ok := true;
    }

    method NoteCommittedKeys(keys: set<Key>, ts: Ts)
      modifies this`lastCommit
      ensures lastCommit == Occ.Noted(old(lastCommit), keys, ts)
    {
      var todo := keys;
      while todo != {}
        invariant todo <= keys
        invariant lastCommit == Occ.Noted(old(lastCommit), keys - todo, ts)
        decreases |todo|
      {
        HasMember(todo);
        var k :| k in todo;
        todo := todo - {k};
        lastCommit := lastCommit[k := ts];
      }
      assert keys - todo == keys;
    }

    /** Session `id` is out of the session table but still registered. */
    ghost predicate EndingOne(id: nat)
      reads this
    {
      active.Keys - {id} == sessions.Keys && forall i :: i in sessions ==>
        i in active && active[i] == sessions[i].readTs
    }

    method EndTransaction(id: nat)
      requires EndingOne(id)
      modifies this`active, this`published
      ensures Valid() && Model() == Occ.Publish(old(Model()))
    {
      active := active - {id};
      PublishWatermark();
    }

    /** The log applies the batch of session `x` and `finalize_txn_commit` records it. */
    method ApplyBatch(x: Occ.Session)
      modifies this`store, this`history, this`lastApplied, this`lastCommit
      ensures Model() == Occ.AppliedBatch(old(Model()), x)
    {
      var ts := lastApplied + 1;
      var applied := store + Occ.Versions(x.writes, ts);
      NoteCommittedKeys(x.writes.Keys, ts);
      store, lastApplied := applied, ts;
      history := history + [Occ.Txn(ts, x.observed, x.writes)];
    }

    /** `taken` tells whether the log accepted the batch (leadership, admission and the
        write-ahead log are outside this model). */
    method TxnCommit(id: nat, taken: bool) returns (r: Result<Ts>)
      requires Valid()
      modifies this
      ensures Valid()
      ensures r == CommitReply(old(Model()), id, taken)
      ensures id !in old(sessions) ==> Model() == old(Model())
      ensures id in old(sessions) ==>
        Model() == if taken then Occ.Commit(old(Model()), id) else Occ.End(old(Model()), id)
    {
      if id !in sessions { return Err(UnknownTxn); }
      var x := sessions[id];
      sessions := sessions - {id};
      if x.writes == map[] {
        EndTransaction(id);
        return Ok(x.readTs);
      }
      var ok := Validate(x);
      if !ok || !taken {
        EndTransaction(id);
        return Err(if ok then NotCommitted else Conflict);
      }
      ApplyBatch(x);
      EndTransaction(id);
      r := Ok(lastApplied);
    }

    method TxnAbort(id: nat)
      requires Valid()
      modifies this
      ensures Valid()
      ensures Model() == if id in old(sessions) then Occ.End(old(Model()), id) else old(Model())
    {
      if id in sessions {
        sessions := sessions - {id};
        EndTransaction(id);
      }
    }
  }
}
