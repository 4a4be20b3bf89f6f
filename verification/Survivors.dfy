/** Which versions of a key a collection keeps: every one at or above the watermark, and
    the newest below it.  The epoch helpers, memtable collection and B-Tree vacuum all
    select exactly these. */
module Survivors {
  import opened Keys
  import opened Mvcc

  predicate Survives(versions: set<Ts>, t: Ts, watermark: Ts) {
    t in versions && (t >= watermark || forall u :: u in versions && u < watermark ==> u <= t)
  }

  function VersionsOf(st: Store, k: Key): set<Ts> {
    set ik | ik in st && ik.key == k :: ik.ts
  }

  /** The store left by a collection. */
  function Surviving(st: Store, watermark: Ts): Store {
    map ik | ik in st && Survives(VersionsOf(st, ik.key), ik.ts, watermark) :: st[ik]
  }

  ghost predicate NewestFirst(ts: seq<Ts>) {
    forall i, j :: 0 <= i < j < |ts| ==> ts[i] >= ts[j]
  }

  function SetOf(ts: seq<Ts>): set<Ts> { set t | t in ts }

  // ---------------------------------------------------------------- epoch helpers

  /** `survivors_for_key`. */
  method SurvivorsForKey(versions: seq<Ts>, watermark: Ts) returns (kept: seq<Ts>)
    requires NewestFirst(versions)
    ensures forall t :: t in kept <==> Survives(SetOf(versions), t, watermark)
    ensures NewestFirst(kept)
  {
    kept := [];
    var keptBelow := false;
    for i := 0 to |versions|
      invariant forall t :: t in kept <==> t in versions[..i] && Survives(SetOf(versions), t, watermark)
      invariant keptBelow <==> exists j :: 0 <= j < i && versions[j] < watermark
      invariant NewestFirst(kept) && forall j, a :: 0 <= j < |kept| && i <= a < |versions| ==> kept[j] >= versions[a]
    {
      var t := versions[i];
      assert versions[..i + 1] == versions[..i] + [t] && t in SetOf(versions);
      if t >= watermark {
        kept := kept + [t];
      } else if !keptBelow {
        kept := kept + [t];
        keptBelow := true;
        assert Survives(SetOf(versions), t, watermark);
      } else {
        ghost var j :| 0 <= j < i && versions[j] < watermark;
        assert versions[j] in versions[..i] && versions[j] in SetOf(versions);
      }
    }
    assert versions[..|versions|] == versions;
  }

  /** `dead_versions_for_key`: those with a newer version below the watermark. */
  method DeadVersionsForKey(versions: seq<Ts>, watermark: Ts) returns (dead: seq<Ts>)
    requires NewestFirst(versions)
    ensures forall t :: t in dead <==> t in versions && exists u :: u in versions && t < u < watermark
  {
    var survivors := SurvivorsForKey(versions, watermark);
    dead := [];
    for i := 0 to |versions|
      invariant forall t :: t in dead <==> t in versions[..i] && t !in survivors
    {
      if versions[i] !in survivors { dead := dead + [versions[i]]; }
    }
    assert versions[..|versions|] == versions;
    forall t ensures t in dead <==> t in versions && exists u :: u in versions && t < u < watermark {
      if t in versions && t !in survivors {
        var u :| u in SetOf(versions) && u < watermark && !(u <= t);
        assert u in versions;
      }
    }
  }

  // ---------------------------------------------------------------- collections over stores

  /** Collection is one of the removals `Collectable` allows, so snapshots at
      `watermark - 1` and later read the same. */
  lemma SurvivingReadsSame(st: Store, watermark: Ts, k: Key, readTs: Ts)
    requires watermark <= readTs + 1
    ensures SeenTs(Surviving(st, watermark), k, readTs) == SeenTs(st, k, readTs)
    ensures ReadAt(Surviving(st, watermark), k, readTs) == ReadAt(st, k, readTs)
  {
    var dead := st.Keys - Surviving(st, watermark).Keys;
    DeadIsShadowed(st, watermark);
    assert st - dead == Surviving(st, watermark);
    CollectKeepsReads(st, dead, watermark, k, readTs);
  }

  /** Nothing that has no newer version below the watermark goes, and all the rest does. */
  lemma DeadIsShadowed(st: Store, watermark: Ts)
    ensures Collectable(st, st.Keys - Surviving(st, watermark).Keys, watermark)
    ensures forall d :: d in st && Shadowed(st, d, watermark) ==> d !in Surviving(st, watermark)
  {
    forall d | d in st ensures d !in Surviving(st, watermark) <==> Shadowed(st, d, watermark) {
      if d !in Surviving(st, watermark) {
        var u :| u in VersionsOf(st, d.key) && u < watermark && u > d.ts;
        assert InternalKey(d.key, u) in st;
      }
      if Shadowed(st, d, watermark) {
        var t: Ts :| d.ts < t < watermark && InternalKey(d.key, t) in st;
        assert t in VersionsOf(st, d.key);
      }
    }
  }

  // ---------------------------------------------------------------- ordered version lists

  lemma {:induction false} Newest(ts: set<Ts>) returns (m: Ts)
    requires ts != {}
    ensures m in ts && forall t :: t in ts ==> t <= m
  {
    m :| m in ts;
    var rest := ts - {m};
    if rest != {} {
      var n := Newest(rest);
      forall t | t in ts ensures t <= (if m > n then m else n) {
        assert t == m || t in rest;
      }
      m := if m > n then m else n;
    } else {
      assert ts == {m};
    }
  }

  lemma HasNewest(ts: set<Ts>)
    requires ts != {}
    ensures exists m :: m in ts && forall t :: t in ts ==> t <= m
  {
    var m := Newest(ts);
  }

  /** The versions of one key as an ordered map yields them. */
  function Descending(ts: set<Ts>): (r: seq<Ts>)
    ensures forall t :: t in r <==> t in ts
    ensures forall i, j :: 0 <= i < j < |r| ==> r[i] > r[j]
  {
    if ts == {} then [] else
      HasNewest(ts);
      var m :| m in ts && forall t :: t in ts ==> t <= m;
      [m] + Descending(ts - {m})
  }

  lemma SurvivesIffNoneBelow(ts: set<Ts>, versions: seq<Ts>, i: nat, watermark: Ts)
    requires i < |versions| && (forall t :: t in versions <==> t in ts)
    requires forall a, b :: 0 <= a < b < |versions| ==> versions[a] > versions[b]
    ensures Survives(ts, versions[i], watermark) <==>
      versions[i] >= watermark || !exists j :: 0 <= j < i && versions[j] < watermark
  {
    if j :| 0 <= j < i && versions[j] < watermark {
      assert versions[j] in ts && versions[j] > versions[i];
    } else {
      forall u | u in ts && u < watermark ensures u <= versions[i] {
        var a :| 0 <= a < |versions| && versions[a] == u;
      }
    }
  }

  /** The loop that lets the first version below the watermark pass and drops the rest. */
  method Doomed(ghost ts: set<Ts>, versions: seq<Ts>, watermark: Ts) returns (dead: set<Ts>)
    requires (forall t :: t in versions <==> t in ts) && forall a, b :: 0 <= a < b < |versions| ==>
      versions[a] > versions[b]
    ensures forall t :: t in dead <==> t in ts && !Survives(ts, t, watermark)
  {
    dead := {};
    var keptBelow := false;
    for i := 0 to |versions|
      invariant keptBelow <==> exists j :: 0 <= j < i && versions[j] < watermark
      invariant forall t :: t in dead <==> t in versions[..i] && !Survives(ts, t, watermark)
    {
      SurvivesIffNoneBelow(ts, versions, i, watermark);
      if versions[i] < watermark {
        if keptBelow { dead := dead + {versions[i]}; }
        keptBelow := true;
      }
    }
    assert versions[..|versions|] == versions;
  }

  /** Memtable and B-Tree stores: an ordered map of internal keys. */
  class VersionMap {
    var map_: Store

    constructor (st: Store)
      ensures map_ == st
    {
      map_ := st;
    }

    /** Removes the versions of one key below the watermark except the newest of them. */
    method CollectKey(k: Key, watermark: Ts)
      modifies this
      ensures forall ik :: ik in map_ <==>
        ik in old(map_) && (ik.key == k ==> Survives(VersionsOf(old(map_), k), ik.ts, watermark))
      ensures forall ik :: ik in map_ ==> map_[ik] == old(map_)[ik]
    {
      var versions := Descending(VersionsOf(map_, k));
      var dead := Doomed(VersionsOf(map_, k), versions, watermark);
      map_ := map_ - (set t | t in dead :: InternalKey(k, t));
      assert forall ik :: ik in old(map_) && ik.key == k ==> ik.ts in VersionsOf(old(map_), k);
    }

    /** `gc_below_watermark` of the memtable and `vacuum_below` of the B-Tree: key by key. */
    method CollectBelow(watermark: Ts) returns (removed: nat)
      modifies this
      ensures map_ == Surviving(old(map_), watermark)
      ensures removed == |old(map_)| - |map_|
    {
      var total := |map_|;
      var todo := set ik | ik in map_ :: ik.key;
      ghost var all := todo;
      while todo != {}
        invariant todo <= all
        invariant forall ik :: ik in map_ <==>
          ik in old(map_) && (ik.key !in todo ==> Survives(VersionsOf(old(map_), ik.key), ik.ts, watermark))
        invariant forall ik :: ik in map_ ==> map_[ik] == old(map_)[ik]
        decreases |todo|
      {
        var k :| k in todo;
        assert VersionsOf(map_, k) == VersionsOf(old(map_), k);
        CollectKey(k, watermark);
        todo := todo - {k};
      }
      assert map_ == Surviving(old(map_), watermark);
      assert map_.Keys <= old(map_).Keys;
      Fewer(map_.Keys, old(map_).Keys);
      removed := total - |map_|;
    }
  }

  lemma Fewer(a: set<InternalKey>, b: set<InternalKey>)
    requires a <= b
    ensures |a| <= |b|
  {
    assert b == a + (b - a);
  }
}
