/** Versioned storage and what garbage collection may drop from it.

    A store maps an internal key (user key, commit timestamp) to a value or a tombstone.
    Every collector of the engine (compaction, memtable GC, B-Tree vacuum) removes only
    versions that have a newer version of the same key below the watermark, in whatever
    part of the store it looked at.  This module says exactly which snapshots such a
    collection leaves alone. */
module Mvcc {
  import opened Keys

  datatype InternalKey = InternalKey(key: Key, ts: Ts)

  type Store = map<InternalKey, Option<Value>>

  /** One version in a sorted run: a memtable or a file is a list of these. */
  datatype Entry = Entry(key: Key, ts: Ts, value: Option<Value>)

  /** Timestamp of the newest version of `k` at or below `readTs`, 0 when there is none. */
  function SeenTs(st: Store, k: Key, readTs: Ts): Ts
    decreases readTs
  {
    if InternalKey(k, readTs) in st || readTs == 0 then readTs else SeenTs(st, k, readTs - 1)
  }

  /** `get_at_with_ts`: the value a snapshot at `readTs` sees (a tombstone reads as absent). */
  function ReadAt(st: Store, k: Key, readTs: Ts): Option<Value> {
    var seen := InternalKey(k, SeenTs(st, k, readTs));
    if seen in st then st[seen] else None
  }

  lemma {:induction false} SeenNewest(st: Store, k: Key, readTs: Ts)
    ensures SeenTs(st, k, readTs) <= readTs
    ensures InternalKey(k, SeenTs(st, k, readTs)) in st || SeenTs(st, k, readTs) == 0
    ensures forall t: Ts :: SeenTs(st, k, readTs) < t <= readTs ==> InternalKey(k, t) !in st
    decreases readTs
  {
    if !(InternalKey(k, readTs) in st || readTs == 0) { SeenNewest(st, k, readTs - 1); }
  }

  /** Two stores with the same newest version read alike. */
  lemma SeenUnique(st: Store, k: Key, readTs: Ts, seen: Ts)
    requires seen <= readTs && (InternalKey(k, seen) in st || seen == 0)
    requires forall t: Ts :: seen < t <= readTs ==> InternalKey(k, t) !in st
    ensures SeenTs(st, k, readTs) == seen
  {
    SeenNewest(st, k, readTs);
  }

  lemma SameReads(a: Store, b: Store, k: Key, readTs: Ts)
    requires forall t: Ts :: t <= readTs ==> (InternalKey(k, t) in a <==> InternalKey(k, t) in b)
    requires forall t: Ts :: t <= readTs && InternalKey(k, t) in a ==> a[InternalKey(k, t)] == b[InternalKey(k, t)]
    ensures SeenTs(a, k, readTs) == SeenTs(b, k, readTs) && ReadAt(a, k, readTs) == ReadAt(b, k, readTs)
  {
    SeenNewest(a, k, readTs);
    SeenUnique(b, k, readTs, SeenTs(a, k, readTs));
  }

  // ---------------------------------------------------------------- garbage collection

  ghost predicate Shadowed(st: Store, d: InternalKey, watermark: Ts) {
    exists t: Ts :: d.ts < t < watermark && InternalKey(d.key, t) in st
  }

  ghost predicate Collectable(st: Store, dead: set<InternalKey>, watermark: Ts) {
    forall d :: d in dead ==> d in st && Shadowed(st, d, watermark)
  }

  /** A snapshot at `watermark - 1` or later reads the same after any collection. */
  lemma CollectKeepsReads(st: Store, dead: set<InternalKey>, watermark: Ts, k: Key, readTs: Ts)
    requires Collectable(st, dead, watermark) && watermark <= readTs + 1
    ensures SeenTs(st - dead, k, readTs) == SeenTs(st, k, readTs)
    ensures ReadAt(st - dead, k, readTs) == ReadAt(st, k, readTs)
  {
    var seen := SeenTs(st, k, readTs);
    SeenNewest(st, k, readTs);
    assert InternalKey(k, seen) !in dead;
    SeenUnique(st - dead, k, readTs, seen);
  }

  /** The bound is exact: below `watermark - 1` there is a store, and a legal collection of
      it, that changes what the snapshot reads. */
  lemma CollectBoundIsExact(readTs: Ts, watermark: Ts, k: Key, v: Value)
    ensures watermark <= readTs + 1 <==>
      (forall st: Store, dead: set<InternalKey> {:trigger Collectable(st, dead, watermark)} ::
         Collectable(st, dead, watermark) ==> ReadAt(st - dead, k, readTs) == ReadAt(st, k, readTs))
  {
    if watermark <= readTs + 1 {
      forall st: Store, dead: set<InternalKey> | Collectable(st, dead, watermark)
        ensures ReadAt(st - dead, k, readTs) == ReadAt(st, k, readTs)
      {
        CollectKeepsReads(st, dead, watermark, k, readTs);
      }
    } else {
      var older, newer := InternalKey(k, readTs), InternalKey(k, readTs + 1);
      var st: Store := map[older := Some(v), newer := Some(v)];
      assert Shadowed(st, older, watermark);
      assert Collectable(st, {older}, watermark);
      assert ReadAt(st, k, readTs) == Some(v);
      SeenNewest(st - {older}, k, readTs);
      assert ReadAt(st - {older}, k, readTs) == None;
    }
  }
}
