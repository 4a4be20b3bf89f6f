/** `partition_txn_branches` (src/dtxn.rs): a transaction workspace is grouped by shard.  The
    routing of a key to its shard (catalog and partition map) is a parameter. */
module Partition {
  import opened Keys
  import opened Shard
  import opened TwoPhase

  /** The writes routed to `sid`, in workspace order. */
  function WritesFor(ws: seq<Write>, route: Write -> ShardId, sid: ShardId): seq<Write> {
    if ws == [] then []
    else
      var last := ws[|ws| - 1];
      WritesFor(ws[..|ws| - 1], route, sid) + if route(last) == sid then [last] else []
  }

  function ReadsFor(rs: seq<(Key, Ts)>, route: Key -> ShardId, sid: ShardId): seq<(Key, Ts)> {
    if rs == [] then []
    else
      var last := rs[|rs| - 1];
      ReadsFor(rs[..|rs| - 1], route, sid) + if route(last.0) == sid then [last] else []
  }

  /** The shards a workspace touches. */
  function Touched(ws: seq<Write>, rs: seq<(Key, Ts)>, routeWrite: Write -> ShardId,
                   routeRead: Key -> ShardId): set<ShardId> {
    (set i | 0 <= i < |ws| :: routeWrite(ws[i])) + (set i | 0 <= i < |rs| :: routeRead(rs[i].0))
  }

  function BranchFor(ws: seq<Write>, rs: seq<(Key, Ts)>, routeWrite: Write -> ShardId, routeRead: Key -> ShardId,
                     sid: ShardId): Branch {
    Branch(sid, WritesFor(ws, routeWrite, sid), ReadsFor(rs, routeRead, sid))
  }

  predicate Groups(m: map<ShardId, Branch>, ws: seq<Write>, rs: seq<(Key, Ts)>, routeWrite: Write -> ShardId,
                   routeRead: Key -> ShardId) {
    && m.Keys == Touched(ws, rs, routeWrite, routeRead)
    && forall sid :: sid in m ==> m[sid] == BranchFor(ws, rs, routeWrite, routeRead, sid)
  }

  /** `part` is what stands at the positions `at` of `all`, in order. */
  ghost predicate Excerpt<T>(part: seq<T>, all: seq<T>, at: seq<nat>) {
    && |at| == |part| && (forall p :: 0 <= p < |at| ==> at[p] < |all| && part[p] == all[at[p]])
    && (forall p, q :: 0 <= p < q < |at| ==> at[p] < at[q])
  }

  lemma ExcerptSnoc<T>(part: seq<T>, all: seq<T>, at: seq<nat>, x: T)
    requires Excerpt(part, all, at)
    ensures Excerpt(part, all + [x], at) && Excerpt(part + [x], all + [x], at + [|all|])
  {
  }

  /** A branch takes exactly the writes routed to its shard, in workspace order. */
  lemma {:induction false} WritesForExactly(ws: seq<Write>, route: Write -> ShardId, sid: ShardId)
    returns (at: seq<nat>)
    ensures Excerpt(WritesFor(ws, route, sid), ws, at)
    ensures forall i :: 0 <= i < |ws| ==> (i in at <==> route(ws[i]) == sid)
  {
    at := [];
    if ws != [] {
      var front, last := ws[..|ws| - 1], ws[|ws| - 1];
      at := WritesForExactly(front, route, sid);
      ExcerptSnoc(WritesFor(front, route, sid), front, at, last);
      assert front + [last] == ws;
      if route(last) == sid { at := at + [|front|]; }
    }
  }

  lemma {:induction false} ReadsForExactly(rs: seq<(Key, Ts)>, route: Key -> ShardId, sid: ShardId)
    returns (at: seq<nat>)
    ensures Excerpt(ReadsFor(rs, route, sid), rs, at)
    ensures forall i :: 0 <= i < |rs| ==> (i in at <==> route(rs[i].0) == sid)
  {
    at := [];
    if rs != [] {
      var front, last := rs[..|rs| - 1], rs[|rs| - 1];
      at := ReadsForExactly(front, route, sid);
      ExcerptSnoc(ReadsFor(front, route, sid), front, at, last);
      assert front + [last] == rs;
      if route(last.0) == sid { at := at + [|front|]; }
    }
  }

  /** The branch holds exactly the writes and the reads routed to its shard, in their order. */
  ghost predicate Takes(b: Branch, ws: seq<Write>, rs: seq<(Key, Ts)>, routeWrite: Write -> ShardId,
                        routeRead: Key -> ShardId) {
    && (exists at :: Excerpt(b.writes, ws, at) && forall i :: 0 <= i < |ws| ==>
          (i in at <==> routeWrite(ws[i]) == b.shard))
    && (exists at :: Excerpt(b.readSet, rs, at) && forall i :: 0 <= i < |rs| ==>
          (i in at <==> routeRead(rs[i].0) == b.shard))
  }

  lemma BranchTakes(ws: seq<Write>, rs: seq<(Key, Ts)>, routeWrite: Write -> ShardId, routeRead: Key -> ShardId,
                    sid: ShardId)
    ensures var b := BranchFor(ws, rs, routeWrite, routeRead, sid);
      && Takes(b, ws, rs, routeWrite, routeRead)
      && (sid in Touched(ws, rs, routeWrite, routeRead) ==> b.writes != [] || b.readSet != [])
  {
    var at := WritesForExactly(ws, routeWrite, sid);
    var from := ReadsForExactly(rs, routeRead, sid);
    assert (exists i :: 0 <= i < |ws| && routeWrite(ws[i]) == sid) ==> at != [];
    assert (exists i :: 0 <= i < |rs| && routeRead(rs[i].0) == sid) ==> from != [];
  }

  lemma {:induction false} UntouchedWrites(ws: seq<Write>, route: Write -> ShardId, sid: ShardId)
    requires forall i :: 0 <= i < |ws| ==> route(ws[i]) != sid
    ensures WritesFor(ws, route, sid) == []
  {
    if ws != [] { UntouchedWrites(ws[..|ws| - 1], route, sid); }
  }

  lemma {:induction false} UntouchedReads(rs: seq<(Key, Ts)>, route: Key -> ShardId, sid: ShardId)
    requires forall i :: 0 <= i < |rs| ==> route(rs[i].0) != sid
    ensures ReadsFor(rs, route, sid) == []
  {
    if rs != [] { UntouchedReads(rs[..|rs| - 1], route, sid); }
  }

  lemma TouchedWrite(ws: seq<Write>, i: nat, routeWrite: Write -> ShardId, routeRead: Key -> ShardId)
    requires i < |ws|
    ensures Touched(ws[..i + 1], [], routeWrite, routeRead) ==
      Touched(ws[..i], [], routeWrite, routeRead) + {routeWrite(ws[i])}
  {
    var more, less := ws[..i + 1], ws[..i];
    forall sid | sid in Touched(more, [], routeWrite, routeRead)
      ensures sid in Touched(less, [], routeWrite, routeRead) + {routeWrite(ws[i])}
    {
      var j :| 0 <= j < |more| && routeWrite(more[j]) == sid;
      if j < i { assert less[j] == more[j]; }
    }
    forall sid | sid in Touched(less, [], routeWrite, routeRead)
      ensures sid in Touched(more, [], routeWrite, routeRead)
    {
      var j :| 0 <= j < |less| && routeWrite(less[j]) == sid;
      assert more[j] == less[j];
    }
    assert more[i] == ws[i];
  }

  lemma TouchedRead(ws: seq<Write>, rs: seq<(Key, Ts)>, i: nat, routeWrite: Write -> ShardId, routeRead: Key -> ShardId)
    requires i < |rs|
    ensures Touched(ws, rs[..i + 1], routeWrite, routeRead) ==
      Touched(ws, rs[..i], routeWrite, routeRead) + {routeRead(rs[i].0)}
  {
    var more, less := rs[..i + 1], rs[..i];
    forall sid | sid in Touched(ws, more, routeWrite, routeRead)
      ensures sid in Touched(ws, less, routeWrite, routeRead) + {routeRead(rs[i].0)}
    {
      if j :| 0 <= j < |more| && routeRead(more[j].0) == sid {
        if j < i { assert less[j] == more[j]; }
      }
    }
    forall sid | sid in Touched(ws, less, routeWrite, routeRead)
      ensures sid in Touched(ws, more, routeWrite, routeRead)
    {
      if j :| 0 <= j < |less| && routeRead(less[j].0) == sid { assert more[j] == less[j]; }
    }
    assert more[i] == rs[i];
  }

  lemma NoneTouched(ws: seq<Write>, rs: seq<(Key, Ts)>, routeWrite: Write -> ShardId, routeRead: Key -> ShardId)
    ensures Touched(ws, rs, routeWrite, routeRead) == {} <==> ws == [] && rs == []
  {
    if ws != [] { assert routeWrite(ws[0]) in Touched(ws, rs, routeWrite, routeRead); }
    if rs != [] { assert routeRead(rs[0].0) in Touched(ws, rs, routeWrite, routeRead); }
  }

  function ShardSet(bs: seq<Branch>): set<ShardId> {
    set i | 0 <= i < |bs| :: bs[i].shard
  }

  lemma ShardSetSnoc(bs: seq<Branch>, b: Branch)
    ensures ShardSet(bs + [b]) == ShardSet(bs) + {b.shard}
  {
    var more := bs + [b];
    assert more[|bs|] == b;
    forall sid | sid in ShardSet(bs) ensures sid in ShardSet(more) {
      var i :| 0 <= i < |bs| && bs[i].shard == sid;
      assert more[i] == bs[i];
    }
  }

  /** Grouping loses, duplicates and reorders nothing: there is one branch per touched shard,
      it holds exactly the writes and reads routed there, and branches come in shard order. */
  method PartitionBranches(ws: seq<Write>, rs: seq<(Key, Ts)>, routeWrite: Write -> ShardId, routeRead: Key -> ShardId,
                           defaultShard: ShardId) returns (bs: seq<Branch>)
    ensures OneBranchPerShard(bs) && bs != []
    ensures ws == [] && rs == [] ==> bs == [Branch(defaultShard, [], [])]
    ensures forall i :: 0 <= i < |ws| ==> routeWrite(ws[i]) in ShardSet(bs)
    ensures forall i :: 0 <= i < |rs| ==> routeRead(rs[i].0) in ShardSet(bs)
    ensures forall i :: 0 <= i < |bs| ==> Takes(bs[i], ws, rs, routeWrite, routeRead)
    ensures ws != [] || rs != [] ==>
      && ShardSet(bs) == Touched(ws, rs, routeWrite, routeRead)
      && forall i :: 0 <= i < |bs| ==>
           && bs[i] == BranchFor(ws, rs, routeWrite, routeRead, bs[i].shard)
           && (bs[i].writes != [] || bs[i].readSet != [])
    ensures forall i, j :: 0 <= i < j < |bs| ==> bs[i].shard < bs[j].shard
  {
    var byShard := GroupWrites(ws, routeWrite, routeRead);
    byShard := GroupReads(byShard, ws, rs, routeWrite, routeRead);
    NoneTouched(ws, rs, routeWrite, routeRead);
    if byShard == map[] {
      bs := [Branch(defaultShard, [], [])];
      BranchTakes(ws, rs, routeWrite, routeRead, defaultShard);
    } else {
      bs := InShardOrder(byShard);
      forall i | 0 <= i < |bs|
        ensures Takes(bs[i], ws, rs, routeWrite, routeRead) && (bs[i].writes != [] || bs[i].readSet != [])
      {
        BranchTakes(ws, rs, routeWrite, routeRead, bs[i].shard);
        assert bs[i].shard in ShardSet(bs);
      }
    }
  }

  method GroupWrites(ws: seq<Write>, routeWrite: Write -> ShardId, ghost routeRead: Key -> ShardId)
    returns (byShard: map<ShardId, Branch>)
    ensures Groups(byShard, ws, [], routeWrite, routeRead)
  {
    byShard := map[];
    for i := 0 to |ws|
      invariant Groups(byShard, ws[..i], [], routeWrite, routeRead)
    {
      var sid := routeWrite(ws[i]);
      TouchedWrite(ws, i, routeWrite, routeRead);
      assert ws[..i + 1][..i] == ws[..i];
      if sid !in byShard { UntouchedWrites(ws[..i], routeWrite, sid); }
      var entry := if sid in byShard then byShard[sid] else Branch(sid, [], []);
      byShard := byShard[sid := entry.(writes := entry.writes + [ws[i]])];
    }
    assert ws[..|ws|] == ws;
  }

  method GroupReads(grouped: map<ShardId, Branch>, ghost ws: seq<Write>, rs: seq<(Key, Ts)>,
                    ghost routeWrite: Write -> ShardId,
                    routeRead: Key -> ShardId) returns (byShard: map<ShardId, Branch>)
    requires Groups(grouped, ws, [], routeWrite, routeRead)
    ensures Groups(byShard, ws, rs, routeWrite, routeRead)
  {
    byShard := grouped;
    for i := 0 to |rs|
      invariant Groups(byShard, ws, rs[..i], routeWrite, routeRead)
    {
      var sid := routeRead(rs[i].0);
      TouchedRead(ws, rs, i, routeWrite, routeRead);
      assert rs[..i + 1][..i] == rs[..i];
      if sid !in byShard {
        UntouchedWrites(ws, routeWrite, sid);
        UntouchedReads(rs[..i], routeRead, sid);
      }
      var entry := if sid in byShard then byShard[sid] else Branch(sid, [], []);
      byShard := byShard[sid := entry.(readSet := entry.readSet + [rs[i]])];
    }
    assert rs[..|rs|] == rs;
  }

  /** `into_values` of an ordered map. */
  method InShardOrder(m: map<ShardId, Branch>) returns (bs: seq<Branch>)
    requires forall sid :: sid in m ==> m[sid].shard == sid
    ensures forall i :: 0 <= i < |bs| ==> bs[i].shard in m && bs[i] == m[bs[i].shard]
    ensures ShardSet(bs) == m.Keys
    ensures forall i, j :: 0 <= i < j < |bs| ==> bs[i].shard < bs[j].shard
  {
    bs := [];
    var todo := m.Keys;
    while todo != {}
      invariant todo <= m.Keys
      invariant forall i :: 0 <= i < |bs| ==> bs[i].shard in m && bs[i] == m[bs[i].shard]
      invariant ShardSet(bs) == m.Keys - todo
      invariant forall i, j :: 0 <= i < j < |bs| ==> bs[i].shard < bs[j].shard
      invariant forall i, sid :: 0 <= i < |bs| && sid in todo ==> bs[i].shard < sid
      decreases todo
    {
      var sid := Least(todo);
      ShardSetSnoc(bs, m[sid]);
      bs := bs + [m[sid]];
      todo := todo - {sid};
    }
  }

  method Least(s: set<ShardId>) returns (least: ShardId)
    requires s != {}
    ensures least in s && forall x :: x in s ==> least <= x
  {
    least :| least in s;
    var todo := s - {least};
    while todo != {}
      invariant todo <= s && least in s
      invariant forall x :: x in s && x !in todo ==> least <= x
      decreases todo
    {
      var x :| x in todo;
      if x < least { least := x; }
      todo := todo - {x};
    }
  }
}
