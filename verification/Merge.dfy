/** The k-way merge of sorted runs with garbage collection at a watermark. */
module Merge {
  import opened Keys
  import opened Mvcc
  import opened Survivors

  // ---------------------------------------------------------------- what a merge yields

  function Times(es: set<Entry>, k: Key): set<Ts> {
    set e | e in es && e.key == k :: e.ts
  }

  predicate Kept(es: set<Entry>, e: Entry, watermark: Ts) {
    Survives(Times(es, e.key), e.ts, watermark)
  }

  /** Keys ascending, timestamps descending within a key, nothing twice. */
  ghost predicate Ordered(out: seq<Entry>) {
    forall i, j :: 0 <= i < j < |out| ==> out[i].key < out[j].key || (out[i].key == out[j].key && out[i].ts > out[j].ts)
  }

  /** Exactly the survivors of the union, each once. */
  ghost predicate MergeOf(out: seq<Entry>, es: set<Entry>, watermark: Ts) {
    Ordered(out) && OnlyKept(out, es, watermark) && AllKept(out, es, watermark)
  }

  ghost predicate OnlyKept(out: seq<Entry>, es: set<Entry>, watermark: Ts) {
    forall e :: e in out ==> e in es && Kept(es, e, watermark)
  }

  ghost predicate AllKept(out: seq<Entry>, es: set<Entry>, watermark: Ts) {
    forall e :: e in es && Kept(es, e, watermark) ==> Emitted(out, e.key, e.ts)
  }

  ghost predicate Emitted(out: seq<Entry>, k: Key, ts: Ts) {
    exists o :: o in out && o.key == k && o.ts == ts
  }

  // ---------------------------------------------------------------- runs and heap

  datatype Item = Item(entry: Entry, source: nat)

  /** The order of the heap: smallest key on top, then newest, then highest source. */
  predicate Before(a: Item, b: Item) {
    || a.entry.key < b.entry.key
    || (a.entry.key == b.entry.key && a.entry.ts > b.entry.ts)
    || (a.entry.key == b.entry.key && a.entry.ts == b.entry.ts && a.source > b.source)
  }

  ghost predicate KeySorted(run: seq<Entry>) {
    forall i, j :: 0 <= i < j < |run| ==> run[i].key <= run[j].key
  }

  ghost predicate Headed(sources: seq<seq<Entry>>, item: Item) {
    item.source < |sources| && forall i :: 0 <= i < |sources[item.source]| ==>
      item.entry.key <= sources[item.source][i].key
  }

  predicate InHeap(heap: seq<Item>, s: nat) {
    exists i :: 0 <= i < |heap| && heap[i].source == s
  }

  /** Every run but those in `out` has its head in the heap, if it has one. */
  ghost predicate Loaded(sources: seq<seq<Entry>>, heap: seq<Item>, out: set<nat>) {
    && (forall s :: 0 <= s < |sources| ==> KeySorted(sources[s]))
    && (forall i :: 0 <= i < |heap| ==> Headed(sources, heap[i]))
    && (forall i, j :: 0 <= i < j < |heap| ==> heap[i].source != heap[j].source)
    && (forall s :: 0 <= s < |sources| && s !in out && sources[s] != [] ==> InHeap(heap, s))
    && (forall s :: s in out ==> !InHeap(heap, s))
  }

  ghost function InRuns(sources: seq<seq<Entry>>): set<Entry> {
    set s, i | 0 <= s < |sources| && 0 <= i < |sources[s]| :: sources[s][i]
  }

  ghost function InItems(heap: seq<Item>): set<Entry> {
    set i | 0 <= i < |heap| :: heap[i].entry
  }

  ghost function Remaining(sources: seq<seq<Entry>>, heap: seq<Item>): set<Entry> {
    InRuns(sources) + InItems(heap)
  }

  ghost function Size(sources: seq<seq<Entry>>): nat {
    if sources == [] then 0 else |sources[0]| + Size(sources[1..])
  }

  lemma {:induction false} SizeDrop(sources: seq<seq<Entry>>, s: nat)
    requires s < |sources| && sources[s] != []
    ensures Size(sources[s := sources[s][1..]]) == Size(sources) - 1
    decreases |sources|
  {
    var next := sources[s := sources[s][1..]];
    if s == 0 {
      assert next[1..] == sources[1..];
    } else {
      SizeDrop(sources[1..], s - 1);
      assert next[1..] == sources[1..][s - 1 := sources[1..][s - 1][1..]];
    }
  }

  // ---------------------------------------------------------------- heap operations

  /** `heap.pop()`. */
  method Pop(heap: seq<Item>) returns (j: nat)
    requires heap != []
    ensures j < |heap| && forall i :: 0 <= i < |heap| ==> !Before(heap[i], heap[j])
    ensures forall i :: 0 <= i < |heap| ==> heap[j].entry.key <= heap[i].entry.key
  {
    j := 0;
    for i := 1 to |heap|
      invariant j < |heap| && forall a :: 0 <= a < i ==> !Before(heap[a], heap[j])
    {
      if Before(heap[i], heap[j]) { j := i; }
    }
  }

  /** The heap without item j. */
  function Without(heap: seq<Item>, j: nat): seq<Item>
    requires j < |heap|
  {
    heap[..j] + heap[j + 1..]
  }

  lemma PopLoaded(sources: seq<seq<Entry>>, heap: seq<Item>, j: nat)
    requires Loaded(sources, heap, {}) && j < |heap|
    ensures Loaded(sources, Without(heap, j), {heap[j].source})
  {
    var rest, x := Without(heap, j), heap[j].source;
    assert forall i :: 0 <= i < |rest| ==> rest[i] == heap[if i < j then i else i + 1];
    forall s | 0 <= s < |sources| && s != x && sources[s] != [] ensures InHeap(rest, s) {
      assert InHeap(heap, s);
      var i :| 0 <= i < |heap| && heap[i].source == s;
      assert rest[if i < j then i else i - 1] == heap[i];
    }
    assert !InHeap(rest, x);
  }

  lemma PopItems(heap: seq<Item>, j: nat)
    requires j < |heap|
    ensures InItems(heap) == InItems(Without(heap, j)) + {heap[j].entry}
  {
    var rest := Without(heap, j);
    forall e ensures e in InItems(heap) <==> e in InItems(rest) + {heap[j].entry} {
      if e in InItems(heap) {
        var i :| 0 <= i < |heap| && heap[i].entry == e;
        if i != j { assert rest[if i < j then i else i - 1] == heap[i]; }
      }
      if e in InItems(rest) {
        var i :| 0 <= i < |rest| && rest[i].entry == e;
        assert heap[if i < j then i else i + 1] == rest[i];
      }
    }
  }

  /** `push_current`: moves the head of a run into the heap. */
  method PushCurrent(sources: seq<seq<Entry>>, heap: seq<Item>, s: nat, ghost out: set<nat>)
    returns (sources': seq<seq<Entry>>, heap': seq<Item>)
    requires s < |sources| && s in out && Loaded(sources, heap, out)
    ensures Loaded(sources', heap', out - {s}) && |sources'| == |sources|
    ensures Remaining(sources', heap') == Remaining(sources, heap)
    ensures 2 * Size(sources') + |heap'| <= 2 * Size(sources) + |heap|
  {
    sources', heap' := sources, heap;
    if sources[s] != [] {
      SizeDrop(sources, s);
      PushLoaded(sources, heap, s, out);
      heap' := heap + [Item(sources[s][0], s)];
      sources' := sources[s := sources[s][1..]];
    }
  }

  lemma PushLoaded(sources: seq<seq<Entry>>, heap: seq<Item>, s: nat, out: set<nat>)
    requires s < |sources| && s in out && Loaded(sources, heap, out) && sources[s] != []
    ensures var heap', sources' := heap + [Item(sources[s][0], s)], sources[s := sources[s][1..]];
      Loaded(sources', heap', out - {s}) && Remaining(sources', heap') == Remaining(sources, heap)
  {
    var heap', sources' := heap + [Item(sources[s][0], s)], sources[s := sources[s][1..]];
    forall t | 0 <= t < |sources'| && t !in out - {s} && sources'[t] != [] ensures InHeap(heap', t) {
      if t == s {
        assert heap'[|heap|].source == s;
      } else {
        assert InHeap(heap, t);
        var i :| 0 <= i < |heap| && heap[i].source == t;
        assert heap'[i] == heap[i];
      }
    }
    forall i | 0 <= i < |heap'| ensures Headed(sources', heap'[i]) {
      if i < |heap| { assert Headed(sources, heap[i]) && heap[i].source != s; }
    }
    PushSame(sources, heap, s);
  }

  lemma PushSame(sources: seq<seq<Entry>>, heap: seq<Item>, s: nat)
    requires s < |sources| && sources[s] != []
    ensures Remaining(sources[s := sources[s][1..]], heap + [Item(sources[s][0], s)]) == Remaining(sources, heap)
  {
    var heap', sources' := heap + [Item(sources[s][0], s)], sources[s := sources[s][1..]];
    forall e ensures e in Remaining(sources', heap') <==> e in Remaining(sources, heap) {
      if e in InRuns(sources) {
        var t, i :| 0 <= t < |sources| && 0 <= i < |sources[t]| && sources[t][i] == e;
        if t != s { assert sources'[t][i] == e; }
        else if i > 0 { assert sources'[s][i - 1] == e; }
        else { assert heap'[|heap|].entry == e; }
      }
      if e in InItems(heap) {
        var i :| 0 <= i < |heap| && heap[i].entry == e;
        assert heap'[i].entry == e;
      }
      if e in InRuns(sources') {
        var t, i :| 0 <= t < |sources'| && 0 <= i < |sources'[t]| && sources'[t][i] == e;
        assert sources[t][if t == s then i + 1 else i] == e;
      }
      if e in InItems(heap') {
        var i :| 0 <= i < |heap'| && heap'[i].entry == e;
        if i < |heap| { assert heap[i].entry == e; } else { assert sources[s][0] == e; }
      }
    }
  }

  /** With every head in the heap, the smallest key of the heap is the smallest of all. */
  lemma TopIsLeast(sources: seq<seq<Entry>>, heap: seq<Item>, k: Key, e: Entry)
    requires Loaded(sources, heap, {}) && e in Remaining(sources, heap)
    requires forall i :: 0 <= i < |heap| ==> k <= heap[i].entry.key
    ensures k <= e.key && heap != []
  {
    if e !in InItems(heap) {
      var s, i :| 0 <= s < |sources| && 0 <= i < |sources[s]| && sources[s][i] == e;
      assert InHeap(heap, s);
      var j :| 0 <= j < |heap| && heap[j].source == s;
      assert Headed(sources, heap[j]);
    }
  }

  // ---------------------------------------------------------------- one user key

  /** The entries of `es` with the smallest key. */
  ghost predicate IsGroup(versions: seq<Entry>, es: set<Entry>, k: Key) {
    && versions != []
    && (forall e :: e in versions <==> e in es && e.key == k)
    && (forall e :: e in es ==> k <= e.key)
  }

  /** Takes item j off the heap and loads the next entry of its run. */
  method Advance(sources0: seq<seq<Entry>>, heap0: seq<Item>, j: nat)
    returns (sources: seq<seq<Entry>>, heap: seq<Item>)
    requires Loaded(sources0, heap0, {}) && j < |heap0|
    ensures Loaded(sources, heap, {}) && |sources| == |sources0|
    ensures Remaining(sources0, heap0) == Remaining(sources, heap) + {heap0[j].entry}
    ensures 2 * Size(sources) + |heap| < 2 * Size(sources0) + |heap0|
  {
    PopLoaded(sources0, heap0, j);
    PopItems(heap0, j);
    var s := heap0[j].source;
    sources, heap := PushCurrent(sources0, Without(heap0, j), s, {s});
    assert {s} - {s} == {};
  }

  method TakeGroup(sources0: seq<seq<Entry>>, heap0: seq<Item>)
    returns (sources: seq<seq<Entry>>, heap: seq<Item>, versions: seq<Entry>, k: Key)
    requires Loaded(sources0, heap0, {}) && heap0 != []
    ensures Loaded(sources, heap, {}) && |sources| == |sources0|
    ensures IsGroup(versions, Remaining(sources0, heap0), k)
    ensures Remaining(sources, heap) == (set e | e in Remaining(sources0, heap0) && e.key > k)
    ensures 2 * Size(sources) + |heap| < 2 * Size(sources0) + |heap0|
  {
    ghost var all := Remaining(sources0, heap0);
    var j := Pop(heap0);
    k := heap0[j].entry.key;
    forall e | e in all ensures k <= e.key { TopIsLeast(sources0, heap0, k, e); }
    versions := [heap0[j].entry];
    sources, heap := Advance(sources0, heap0, j);
    var more := true;
    while more
      invariant Loaded(sources, heap, {}) && |sources| == |sources0| && versions != []
      invariant forall e :: e in versions ==> e.key == k
      invariant forall e :: e in all <==> e in versions || e in Remaining(sources, heap)
      invariant !more ==> forall e :: e in Remaining(sources, heap) ==> k < e.key
      invariant 2 * Size(sources) + |heap| < 2 * Size(sources0) + |heap0|
      decreases 2 * Size(sources) + |heap|, more
    {
      more := false;
      if heap == [] {
        NothingLeft(sources, heap);
      } else {
        j := Pop(heap);
        if heap[j].entry.key == k {
          versions := versions + [heap[j].entry];
          sources, heap := Advance(sources, heap, j);
          more := true;
        } else {
          forall e | e in Remaining(sources, heap) ensures k < e.key {
            TopIsLeast(sources, heap, heap[j].entry.key, e);
          }
        }
      }
    }
  }

  lemma NothingLeft(sources: seq<seq<Entry>>, heap: seq<Item>)
    requires Loaded(sources, heap, {}) && heap == []
    ensures Remaining(sources, heap) == {}
  {
    forall s: nat | s < |sources| ensures sources[s] == [] {
      assert !InHeap(heap, s);
    }
  }

  ghost predicate Newer(vs: seq<Entry>) {
    forall i, j :: 0 <= i < j < |vs| ==> vs[i].ts >= vs[j].ts
  }

  ghost predicate StrictlyNewer(vs: seq<Entry>) {
    forall i, j :: 0 <= i < j < |vs| ==> vs[i].ts > vs[j].ts
  }

  /** Inserts behind the entries that are as new. */
  function Insert(vs: seq<Entry>, e: Entry): (r: seq<Entry>)
    requires Newer(vs)
    ensures Newer(r) && |r| == |vs| + 1 && forall x :: x in r <==> x in vs || x == e
    decreases |vs|
  {
    if vs == [] then [e]
    else if vs[0].ts < e.ts then [e] + vs
    else
      var r := Insert(vs[1..], e);
      assert vs == [vs[0]] + vs[1..];
      assert forall x :: x in r ==> x.ts <= vs[0].ts;
      [vs[0]] + r
  }

  /** The stable sort, newest first. */
  method SortNewestFirst(vs: seq<Entry>) returns (r: seq<Entry>)
    ensures Newer(r) && |r| == |vs| && forall e :: e in r <==> e in vs
  {
    r := [];
    for i := 0 to |vs|
      invariant Newer(r) && |r| == i && forall e :: e in r <==> e in vs[..i]
    {
      assert vs[..i + 1] == vs[..i] + [vs[i]];
      r := Insert(r, vs[i]);
    }
    assert vs[..|vs|] == vs;
  }

  function TimesOf(vs: seq<Entry>): set<Ts> { set e | e in vs :: e.ts }

  lemma TimesSnoc(vs: seq<Entry>, e: Entry)
    ensures TimesOf(vs + [e]) == TimesOf(vs) + {e.ts}
  {
    forall t ensures t in TimesOf(vs + [e]) <==> t in TimesOf(vs) + {e.ts} {
      if t in TimesOf(vs) {
        var x :| x in vs && x.ts == t;
        assert x in vs + [e];
      }
      assert e in vs + [e];
    }
  }

  /** `dedup_by` timestamp: the first of equals stays. */
  method Dedup(vs: seq<Entry>) returns (r: seq<Entry>)
    requires Newer(vs)
    ensures StrictlyNewer(r) && TimesOf(r) == TimesOf(vs) && forall e :: e in r ==> e in vs
  {
    r := [];
    for i := 0 to |vs|
      invariant StrictlyNewer(r) && (forall e :: e in r ==> e in vs)
      invariant TimesOf(r) == TimesOf(vs[..i])
      invariant (r == [] <==> i == 0) && (i > 0 ==> r[|r| - 1].ts == vs[i - 1].ts)
    {
      assert vs[..i + 1] == vs[..i] + [vs[i]];
      TimesSnoc(vs[..i], vs[i]);
      if r == [] || r[|r| - 1].ts != vs[i].ts {
        TimesSnoc(r, vs[i]);
        assert i > 0 ==> r[|r| - 1].ts > vs[i].ts;
        r := r + [vs[i]];
      } else {
        assert r[|r| - 1] in r;
      }
    }
    assert vs[..|vs|] == vs;
  }

  /** The watermark loop. */
  method KeepVisible(vs: seq<Entry>, watermark: Ts) returns (kept: seq<Entry>)
    requires StrictlyNewer(vs)
    ensures StrictlyNewer(kept)
    ensures forall e :: e in kept <==> e in vs && Survives(TimesOf(vs), e.ts, watermark)
  {
    kept := [];
    var keptBelow := false;
    for i := 0 to |vs|
      invariant StrictlyNewer(kept) && (i < |vs| ==> forall a :: 0 <= a < |kept| ==> kept[a].ts > vs[i].ts)
      invariant forall e :: e in kept <==> e in vs[..i] && Survives(TimesOf(vs), e.ts, watermark)
      invariant keptBelow <==> exists j :: 0 <= j < i && vs[j].ts < watermark
    {
      assert vs[..i + 1] == vs[..i] + [vs[i]];
      FirstBelow(vs, i, watermark);
      if vs[i].ts >= watermark {
        kept := kept + [vs[i]];
      } else if !keptBelow {
        kept := kept + [vs[i]];
        keptBelow := true;
      }
    }
    assert vs[..|vs|] == vs;
  }

  lemma FirstBelow(vs: seq<Entry>, i: nat, watermark: Ts)
    requires StrictlyNewer(vs) && i < |vs|
    ensures Survives(TimesOf(vs), vs[i].ts, watermark) <==>
      vs[i].ts >= watermark || !exists j :: 0 <= j < i && vs[j].ts < watermark
  {
    assert vs[i].ts in TimesOf(vs);
    if j :| 0 <= j < i && vs[j].ts < watermark {
      assert vs[j].ts in TimesOf(vs);
    } else {
      forall u | u in TimesOf(vs) && u < watermark ensures u <= vs[i].ts {
        var e :| e in vs && e.ts == u;
        var a :| 0 <= a < |vs| && vs[a] == e;
      }
    }
  }

  /** What is emitted for one key: its survivors, newest first. */
  ghost predicate GroupKept(kept: seq<Entry>, es: set<Entry>, k: Key, watermark: Ts) {
    && StrictlyNewer(kept)
    && (forall e :: e in kept ==> e in es && e.key == k && Kept(es, e, watermark))
    && (forall e :: e in es && e.key == k && Kept(es, e, watermark) ==> Emitted(kept, k, e.ts))
  }

  lemma GroupTimes(vs: seq<Entry>, es: set<Entry>, k: Key)
    requires forall e :: e in vs <==> e in es && e.key == k
    ensures TimesOf(vs) == Times(es, k)
  {
  }

  lemma GroupIsKept(kept: seq<Entry>, distinct: seq<Entry>, es: set<Entry>, k: Key, watermark: Ts)
    requires StrictlyNewer(kept) && TimesOf(distinct) == Times(es, k) && forall e :: e in distinct ==>
      e in es && e.key == k
    requires forall e :: e in kept <==> e in distinct && Survives(TimesOf(distinct), e.ts, watermark)
    ensures GroupKept(kept, es, k, watermark)
  {
    forall e | e in es && e.key == k && Kept(es, e, watermark) ensures Emitted(kept, k, e.ts) {
      assert e.ts in Times(es, k);
      var o :| o in distinct && o.ts == e.ts;
      assert o in kept;
    }
  }

  /** The newest version of a key always survives. */
  lemma GroupNonEmpty(kept: seq<Entry>, versions: seq<Entry>, es: set<Entry>, k: Key, watermark: Ts)
    requires IsGroup(versions, es, k) && GroupKept(kept, es, k, watermark)
    ensures kept != []
  {
    assert versions[0] in es && versions[0].ts in Times(es, k);
    var m := Newest(Times(es, k));
    var e :| e in es && e.key == k && e.ts == m;
    assert Kept(es, e, watermark);
  }

  method Group(versions: seq<Entry>, ghost es: set<Entry>, ghost k: Key, watermark: Ts) returns (kept: seq<Entry>)
    requires IsGroup(versions, es, k)
    ensures GroupKept(kept, es, k, watermark)
  {
    var sorted := SortNewestFirst(versions);
    GroupTimes(sorted, es, k);
    var distinct := Dedup(sorted);
    kept := KeepVisible(distinct, watermark);
    GroupIsKept(kept, distinct, es, k, watermark);
  }

  /** The survivors of the smallest key, taken out of the runs. */
  method NextGroup(sources0: seq<seq<Entry>>, heap0: seq<Item>, watermark: Ts)
    returns (sources: seq<seq<Entry>>, heap: seq<Item>, kept: seq<Entry>, k: Key)
    requires Loaded(sources0, heap0, {}) && heap0 != []
    ensures Loaded(sources, heap, {}) && kept != []
    ensures TakesOut(Remaining(sources0, heap0), kept, k, Remaining(sources, heap), watermark)
    ensures 2 * Size(sources) + |heap| < 2 * Size(sources0) + |heap0|
  {
    ghost var before := Remaining(sources0, heap0);
    var versions;
    sources, heap, versions, k := TakeGroup(sources0, heap0);
    kept := Group(versions, before, k, watermark);
    GroupNonEmpty(kept, versions, before, k, watermark);
  }

  ghost predicate TakesOut(before: set<Entry>, kept: seq<Entry>, k: Key, after: set<Entry>, watermark: Ts) {
    && GroupKept(kept, before, k, watermark)
    && after == (set e | e in before && e.key > k)
    && (forall e :: e in before ==> k <= e.key)
  }

  // ---------------------------------------------------------------- the iterator

  function Reversed(vs: seq<Entry>): seq<Entry> {
    if vs == [] then [] else [vs[|vs| - 1]] + Reversed(vs[..|vs| - 1])
  }

  lemma {:induction false} ReversedTwice(vs: seq<Entry>)
    ensures Reversed(Reversed(vs)) == vs
    decreases |vs|
  {
    if vs != [] {
      var front := vs[..|vs| - 1];
      ReversedTwice(front);
      ReversedCons(vs[|vs| - 1], Reversed(front));
      assert vs == front + [vs[|vs| - 1]];
    }
  }

  lemma {:induction false} ReversedCons(e: Entry, vs: seq<Entry>)
    ensures Reversed([e] + vs) == Reversed(vs) + [e]
    decreases |vs|
  {
    var all := [e] + vs;
    if vs != [] {
      assert all[..|all| - 1] == [e] + vs[..|vs| - 1];
      ReversedCons(e, vs[..|vs| - 1]);
    } else {
      assert all == [e];
    }
  }

  ghost function Range(lo: nat, hi: nat): (r: set<nat>)
    ensures forall t :: t in r <==> lo <= t < hi
    decreases hi - lo
  {
    if lo >= hi then {} else {lo} + Range(lo + 1, hi)
  }

  // ---------------------------------------------------------------- the whole merge

  /** Entries of smaller keys, and everything still to come. */
  ghost predicate Below(done: set<Entry>, left: set<Entry>) {
    forall e, f :: e in done && f in left ==> e.key < f.key
  }

  ghost function GroupAt(es: set<Entry>, k: Key): set<Entry> { set e | e in es && e.key == k }

  lemma TimesSplit(done: set<Entry>, left: set<Entry>, k: Key, e: Entry)
    requires Below(done, left)
    ensures e in done ==> Times(done + GroupAt(left, k), e.key) == Times(done, e.key)
    ensures e in GroupAt(left, k) ==> Times(done + GroupAt(left, k), e.key) == Times(left, e.key)
  {
    var all := done + GroupAt(left, k);
    if e in done {
      forall t | t in Times(all, e.key) ensures t in Times(done, e.key) {
        var x :| x in all && x.key == e.key && x.ts == t;
        assert x in done;
      }
    }
    if e in GroupAt(left, k) {
      forall t | t in Times(all, e.key) ensures t in Times(left, e.key) {
        var x :| x in all && x.key == e.key && x.ts == t;
        assert x in left;
      }
      forall t | t in Times(left, e.key) ensures t in Times(all, e.key) {
        var x :| x in left && x.key == e.key && x.ts == t;
        assert x in GroupAt(left, k);
      }
    }
  }

  lemma OrderedExtends(out: seq<Entry>, kept: seq<Entry>, k: Key)
    requires Ordered(out) && StrictlyNewer(kept)
    requires (forall e :: e in out ==> e.key < k) && forall e :: e in kept ==> e.key == k
    ensures Ordered(out + kept)
  {
    var all := out + kept;
    forall i, j | 0 <= i < j < |all|
      ensures all[i].key < all[j].key || (all[i].key == all[j].key && all[i].ts > all[j].ts)
    {
      if i < |out| { assert all[i] in out; } else { assert all[i] in kept; }
      if j < |out| { assert all[j] in out; } else { assert all[j] in kept; }
    }
  }

  lemma OnlyKeptExtends(out: seq<Entry>, done: set<Entry>, kept: seq<Entry>, left: set<Entry>, k: Key, watermark: Ts)
    requires OnlyKept(out, done, watermark) && GroupKept(kept, left, k, watermark) && Below(done, left)
    ensures OnlyKept(out + kept, done + GroupAt(left, k), watermark)
  {
    forall e | e in out + kept ensures e in done + GroupAt(left, k) && Kept(done + GroupAt(left, k), e, watermark) {
      TimesSplit(done, left, k, e);
    }
  }

  lemma AllKeptExtends(out: seq<Entry>, done: set<Entry>, kept: seq<Entry>, left: set<Entry>, k: Key, watermark: Ts)
    requires AllKept(out, done, watermark) && GroupKept(kept, left, k, watermark) && Below(done, left)
    ensures AllKept(out + kept, done + GroupAt(left, k), watermark)
  {
    var all := done + GroupAt(left, k);
    forall e | e in all && Kept(all, e, watermark) ensures Emitted(out + kept, e.key, e.ts) {
      TimesSplit(done, left, k, e);
      assert Emitted(out, e.key, e.ts) || Emitted(kept, e.key, e.ts);
      var o :| (o in out || o in kept) && o.key == e.key && o.ts == e.ts;
      assert o in out + kept;
    }
  }

  /** A merge of the smaller keys so far, and the rest of the union still to come. */
  ghost predicate Progress(out: seq<Entry>, done: set<Entry>, left: set<Entry>, all: set<Entry>, watermark: Ts) {
    MergeOf(out, done, watermark) && Below(done, left) && done + left == all
  }

  /** Emitting the next key's survivors is progress. */
  lemma GroupProgress(out: seq<Entry>, done: set<Entry>, kept: seq<Entry>, k: Key, left: set<Entry>, left': set<Entry>,
                      all: set<Entry>, watermark: Ts)
    requires Progress(out, done, left, all, watermark) && TakesOut(left, kept, k, left', watermark) && kept != []
    ensures Progress(out + kept, done + GroupAt(left, k), left', all, watermark)
  {
    assert kept[0] in kept;
    OrderedExtends(out, kept, k);
    OnlyKeptExtends(out, done, kept, left, k, watermark);
    AllKeptExtends(out, done, kept, left, k, watermark);
  }

  /** One key taken out: what was kept of it and what the runs hold afterwards. */
  datatype Taken = Taken(kept: seq<Entry>, key: Key, left: set<Entry>)

  ghost function LeftOf(all: set<Entry>, trace: seq<Taken>): set<Entry> {
    if trace == [] then all else trace[|trace| - 1].left
  }

  ghost function Flat(trace: seq<Taken>): seq<Entry> {
    if trace == [] then [] else Flat(trace[..|trace| - 1]) + trace[|trace| - 1].kept
  }

  /** Key after key, each taken out of what the one before left. */
  ghost predicate Chain(all: set<Entry>, trace: seq<Taken>, watermark: Ts) {
    trace == [] ||
    (var front, last := trace[..|trace| - 1], trace[|trace| - 1];
     Chain(all, front, watermark) && last.kept != [] &&
     TakesOut(LeftOf(all, front), last.kept, last.key, last.left, watermark))
  }

  lemma ChainSnoc(all: set<Entry>, trace: seq<Taken>, t: Taken, watermark: Ts)
    requires Chain(all, trace, watermark) && t.kept != [] &&
             TakesOut(LeftOf(all, trace), t.kept, t.key, t.left, watermark)
    ensures Chain(all, trace + [t], watermark) && LeftOf(all, trace + [t]) == t.left &&
            Flat(trace + [t]) == Flat(trace) + t.kept
  {
    assert (trace + [t])[..|trace|] == trace;
  }

  lemma {:induction false} ChainProgress(all: set<Entry>, trace: seq<Taken>, watermark: Ts)
    requires Chain(all, trace, watermark)
    ensures Progress(Flat(trace), all - LeftOf(all, trace), LeftOf(all, trace), all, watermark)
    decreases |trace|
  {
    if trace != [] {
      var front, last := trace[..|trace| - 1], trace[|trace| - 1];
      ChainProgress(all, front, watermark);
      var before := LeftOf(all, front);
      GroupProgress(Flat(front), all - before, last.kept, last.key, before, last.left, all, watermark);
      assert (all - before) + GroupAt(before, last.key) == all - last.left;
    }
  }

  lemma ChainMerges(all: set<Entry>, trace: seq<Taken>, watermark: Ts)
    requires Chain(all, trace, watermark) && LeftOf(all, trace) == {}
    ensures MergeOf(Flat(trace), all, watermark)
  {
    ChainProgress(all, trace, watermark);
    assert all - {} == all;
  }

  class KWayMerge {
    var sources: seq<seq<Entry>>
    var heap: seq<Item>
    var pending: seq<Entry>
    const watermark: Ts
    ghost const all: set<Entry>        // the union of the runs
    ghost var emitted: seq<Entry>      // what `NextEntry` has returned so far
    ghost var trace: seq<Taken>

    ghost predicate Valid()
      reads this
    {
      && Loaded(sources, heap, {})
      && Chain(all, trace, watermark) && LeftOf(all, trace) == Remaining(sources, heap)
      && emitted + Reversed(pending) == Flat(trace)
    }

    constructor (runs: seq<seq<Entry>>, watermark: Ts)
      requires forall s :: 0 <= s < |runs| ==> KeySorted(runs[s])
      ensures Valid() && all == InRuns(runs) && emitted == [] && this.watermark == watermark
    {
      var sources, heap := runs, [];
      ghost var out := Range(0, |runs|);
      assert Loaded(sources, heap, out);
      for s := 0 to |runs|
        invariant |sources| == |runs| && out == Range(s, |runs|)
        invariant Loaded(sources, heap, out) && Remaining(sources, heap) == InRuns(runs)
      {
        sources, heap := PushCurrent(sources, heap, s, out);
        out := out - {s};
      }
      this.sources, this.heap, pending := sources, heap, [];
      this.watermark := watermark;
      all, emitted, trace := InRuns(runs), [], [];
    }

    /** `next_entry`: first what is pending, then the next key.  When nothing is left, what
        was returned is the merge of the runs. */
    method NextEntry() returns (r: Option<Entry>)
      requires Valid()
      modifies this
      ensures Valid()
      ensures r == None ==> unchanged(this) && MergeOf(emitted, all, watermark)
      ensures r.Some? ==> emitted == old(emitted) + [r.value]
      ensures r.Some? ==>
        var before, after := old(2 * Size(sources) + |heap|), 2 * Size(sources) + |heap|;
        after < before || (after == before && |pending| < |old(pending)|)
    {
      if pending == [] {
        if heap == [] {
          NothingLeft(sources, heap);
          ChainMerges(all, trace, watermark);
          assert emitted == Flat(trace);
          return None;
        }
        Refill();
      }
      r := Some(pending[|pending| - 1]);
      pending := pending[..|pending| - 1];
      assert (emitted + [r.value]) + Reversed(pending) == emitted + ([r.value] + Reversed(pending));
      emitted := emitted + [r.value];
    }

    method Refill()
      requires Valid() && pending == [] && heap != []
      modifies this`sources, this`heap, this`pending, this`trace
      ensures Valid() && pending != []
      ensures 2 * Size(sources) + |heap| < old(2 * Size(sources) + |heap|)
    {
      var newSources, newHeap, kept, k := NextGroup(sources, heap, watermark);
      ghost var t := Taken(kept, k, Remaining(newSources, newHeap));
      ChainSnoc(all, trace, t, watermark);
      ReversedTwice(kept);
      assert emitted + Reversed(pending) == emitted;
      sources, heap, pending := newSources, newHeap, Reversed(kept);
      trace := trace + [t];
    }
  }

  /** Draining the iterator, as a compaction does. */
  method MergeAll(runs: seq<seq<Entry>>, watermark: Ts) returns (out: seq<Entry>)
    requires forall s :: 0 <= s < |runs| ==> KeySorted(runs[s])
    ensures MergeOf(out, InRuns(runs), watermark)
  {
    var merge := new KWayMerge(runs, watermark);
    out := [];
    var more := true;
    while more
      invariant merge.Valid() && merge.all == InRuns(runs) && merge.watermark == watermark && merge.emitted == out
      invariant !more ==> MergeOf(out, InRuns(runs), watermark)
      decreases 2 * Size(merge.sources) + |merge.heap|, |merge.pending|, more
    {
      var next := merge.NextEntry();
      if next.Some? { out := out + [next.value]; } else { more := false; }
    }
  }
}
