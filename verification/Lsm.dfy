/** Reading an LSM tree, and compaction seen by its readers. */
module Lsm {
  import opened Keys
  import opened Mvcc
  import opened Survivors
  import opened Merge
  import Split
  import C = Catalog

  /** A file of the tree: its catalog record and its sorted entries. */
  datatype Sst = Sst(file: C.File, entries: seq<Entry>)

  ghost predicate Bounded(f: Sst) {
    forall e :: e in f.entries ==> f.file.smallest <= e.key <= f.file.largest
  }

  function EntriesOf(files: seq<Sst>): seq<seq<Entry>> {
    seq(|files|, i requires 0 <= i < |files| => files[i].entries)
  }

  // ---------------------------------------------------------------- point lookup

  /** b is the newest version of k at or below readTs among `es`. */
  ghost predicate IsNewest(b: Option<Entry>, es: set<Entry>, k: Key, readTs: Ts) {
    match b
    case None => forall e :: e in es ==> !Visible(e, k, readTs)
    case Some(x) => x in es && Visible(x, k, readTs) && forall e :: e in es && Visible(e, k, readTs) ==> e.ts <= x.ts
  }

  predicate Visible(e: Entry, k: Key, readTs: Ts) {
    e.key == k && e.ts <= readTs
  }

  function SetOf(es: seq<Entry>): set<Entry> { set e | e in es }

  /** The rule by which lookups combine: an equally new earlier find stays. */
  function Better(best: Option<Entry>, found: Option<Entry>): Option<Entry> {
    if found == None || (best.Some? && best.value.ts >= found.value.ts) then best else found
  }

  lemma BetterIsNewest(a: Option<Entry>, as_: set<Entry>, b: Option<Entry>, bs: set<Entry>, k: Key, readTs: Ts)
    requires IsNewest(a, as_, k, readTs) && IsNewest(b, bs, k, readTs)
    ensures IsNewest(Better(a, b), as_ + bs, k, readTs)
  {
  }

  /** The lookup in one sorted run. */
  method RunGetAt(run: seq<Entry>, k: Key, readTs: Ts) returns (best: Option<Entry>)
    ensures IsNewest(best, SetOf(run), k, readTs)
  {
    best := None;
    for i := 0 to |run|
      invariant IsNewest(best, SetOf(run[..i]), k, readTs)
    {
      assert SetOf(run[..i + 1]) == SetOf(run[..i]) + {run[i]};
      if Visible(run[i], k, readTs) && (best == None || run[i].ts > best.value.ts) { best := Some(run[i]); }
    }
    assert run[..|run|] == run;
  }

  ghost function Contents(levels: seq<seq<Sst>>): set<Entry> {
    set l, i, e | 0 <= l < |levels| && 0 <= i < |levels[l]| && e in levels[l][i].entries :: e
  }

  ghost function LevelContents(files: seq<Sst>): set<Entry> {
    set i, e | 0 <= i < |files| && e in files[i].entries :: e
  }

  /** The probe of one level; above level 0 a file whose range misses the key is skipped. */
  method LevelGetAt(files: seq<Sst>, level: nat, k: Key, readTs: Ts, sofar: Option<Entry>, ghost seen: set<Entry>)
    returns (best: Option<Entry>)
    requires forall i :: 0 <= i < |files| ==> Bounded(files[i])
    requires IsNewest(sofar, seen, k, readTs)
    ensures IsNewest(best, seen + LevelContents(files), k, readTs)
  {
    best := sofar;
    for i := 0 to |files|
      invariant IsNewest(best, seen + LevelContents(files[..i]), k, readTs)
    {
      LevelSnoc(files, i);
      ghost var before := seen + LevelContents(files[..i]);
      assert seen + LevelContents(files[..i + 1]) == before + SetOf(files[i].entries);
      if level > 0 && (k < files[i].file.smallest || k > files[i].file.largest) {
        assert Bounded(files[i]);
        assert IsNewest(None, SetOf(files[i].entries), k, readTs);
        BetterIsNewest(best, before, None, SetOf(files[i].entries), k, readTs);
      } else {
        var found := RunGetAt(files[i].entries, k, readTs);
        BetterIsNewest(best, before, found, SetOf(files[i].entries), k, readTs);
        best := Better(best, found);
      }
    }
    assert files[..|files|] == files;
  }

  lemma LevelSnoc(files: seq<Sst>, i: nat)
    requires i < |files|
    ensures LevelContents(files[..i + 1]) == LevelContents(files[..i]) + SetOf(files[i].entries)
  {
    forall e ensures e in LevelContents(files[..i + 1]) <==> e in LevelContents(files[..i]) + SetOf(files[i].entries) {
      if e in LevelContents(files[..i + 1]) {
        var j :| 0 <= j <= i && e in files[..i + 1][j].entries;
        if j < i { assert e in files[..i][j].entries; }
      }
      if e in LevelContents(files[..i]) {
        var j :| 0 <= j < i && e in files[..i][j].entries;
        assert e in files[..i + 1][j].entries;
      }
      if e in files[i].entries { assert e in files[..i + 1][i].entries; }
    }
  }

  lemma ContentsSnoc(levels: seq<seq<Sst>>, l: nat)
    requires l < |levels|
    ensures Contents(levels[..l + 1]) == Contents(levels[..l]) + LevelContents(levels[l])
  {
    forall e ensures e in Contents(levels[..l + 1]) <==> e in Contents(levels[..l]) + LevelContents(levels[l]) {
      if e in Contents(levels[..l + 1]) {
        var m, i :| 0 <= m <= l && 0 <= i < |levels[..l + 1][m]| && e in levels[..l + 1][m][i].entries;
        if m < l { assert e in levels[..l][m][i].entries; } else { assert e in levels[l][i].entries; }
      }
      if e in Contents(levels[..l]) {
        var m, i :| 0 <= m < l && 0 <= i < |levels[..l][m]| && e in levels[..l][m][i].entries;
        assert e in levels[..l + 1][m][i].entries;
      }
      if e in LevelContents(levels[l]) {
        var i :| 0 <= i < |levels[l]| && e in levels[l][i].entries;
        assert e in levels[..l + 1][l][i].entries;
      }
    }
  }

  /** `LSMReader::get_at`: active memtable, immutable memtable, then every level. */
  method GetAt(active: seq<Entry>, immutable: Option<seq<Entry>>, levels: seq<seq<Sst>>, k: Key, readTs: Ts)
    returns (best: Option<Entry>)
    requires forall l, i :: 0 <= l < |levels| && 0 <= i < |levels[l]| ==> Bounded(levels[l][i])
    ensures IsNewest(best, Everything(active, immutable, levels), k, readTs)
  {
    best := RunGetAt(active, k, readTs);
    ghost var seen := SetOf(active);
    if immutable.Some? {
      var found := RunGetAt(immutable.value, k, readTs);
      BetterIsNewest(best, seen, found, SetOf(immutable.value), k, readTs);
      best := Better(best, found);
      seen := seen + SetOf(immutable.value);
    }
    for l := 0 to |levels|
      invariant IsNewest(best, seen + Contents(levels[..l]), k, readTs)
    {
      ContentsSnoc(levels, l);
      best := LevelGetAt(levels[l], l, k, readTs, best, seen + Contents(levels[..l]));
      assert seen + Contents(levels[..l + 1]) == (seen + Contents(levels[..l])) + LevelContents(levels[l]);
    }
    assert levels[..|levels|] == levels;
    assert Everything(active, immutable, levels) == seen + Contents(levels);
  }

  ghost function Everything(active: seq<Entry>, immutable: Option<seq<Entry>>, levels: seq<seq<Sst>>): set<Entry> {
    SetOf(active) + (if immutable.Some? then SetOf(immutable.value) else {}) + Contents(levels)
  }

  // ---------------------------------------------------------------- compaction

  /** A commit timestamp has one entry per key. */
  ghost predicate Functional(es: set<Entry>) {
    forall e, f :: e in es && f in es && e.key == f.key && e.ts == f.ts ==> e == f
  }

  /** What a snapshot at `watermark - 1` or later needs survives the merge. */
  lemma NewestIsKept(es: set<Entry>, x: Entry, k: Key, readTs: Ts, watermark: Ts)
    requires IsNewest(Some(x), es, k, readTs) && watermark <= readTs + 1
    ensures Kept(es, x, watermark)
  {
    assert x.ts in Times(es, x.key);
    forall u | u in Times(es, x.key) && u < watermark ensures u <= x.ts {
      var e :| e in es && e.key == x.key && e.ts == u;
      assert Visible(e, k, readTs);
    }
  }

  lemma {:induction false} NewestExists(es: set<Entry>, k: Key, readTs: Ts) returns (b: Option<Entry>)
    ensures IsNewest(b, es, k, readTs)
  {
    if e :| e in es {
      var rest := es - {e};
      b := NewestExists(rest, k, readTs);
      assert es == rest + {e};
      var one := if Visible(e, k, readTs) then Some(e) else None;
      assert IsNewest(one, {e}, k, readTs);
      BetterIsNewest(b, rest, one, {e}, k, readTs);
      b := Better(b, one);
    } else {
      b := None;
    }
  }

  /** Merging and collecting the inputs leaves their newest visible version alone. */
  lemma MergeKeepsNewest(es: set<Entry>, out: seq<Entry>, k: Key, readTs: Ts, watermark: Ts, b: Option<Entry>)
    requires MergeOf(out, es, watermark) && Functional(es) && watermark <= readTs + 1
    requires IsNewest(b, es, k, readTs)
    ensures IsNewest(b, SetOf(out), k, readTs)
  {
    if b.Some? {
      NewestIsKept(es, b.value, k, readTs, watermark);
      assert Emitted(out, k, b.value.ts);
      var o :| o in out && o.key == k && o.ts == b.value.ts;
      assert o in es && o == b.value;
    }
  }

  /** Replacing input files by merged, collected and split outputs changes no lookup at
      `watermark - 1` or later, whatever versions of the key live elsewhere. */
  lemma CompactionKeepsReads(elsewhere: set<Entry>, inputs: set<Entry>, out: seq<Entry>, watermark: Ts, k: Key,
                             readTs: Ts, b: Option<Entry>)
    requires MergeOf(out, inputs, watermark) && Functional(elsewhere + inputs) && watermark <= readTs + 1
    ensures IsNewest(b, elsewhere + inputs, k, readTs) <==> IsNewest(b, elsewhere + SetOf(out), k, readTs)
  {
    var other := NewestExists(elsewhere, k, readTs);
    var inner := NewestExists(inputs, k, readTs);
    MergeKeepsNewest(inputs, out, k, readTs, watermark, inner);
    BetterIsNewest(other, elsewhere, inner, inputs, k, readTs);
    BetterIsNewest(other, elsewhere, inner, SetOf(out), k, readTs);
    assert forall e :: e in out ==> e in inputs;
    NewestUnique(Better(other, inner), b, elsewhere + inputs, k, readTs);
    NewestUnique(Better(other, inner), b, elsewhere + SetOf(out), k, readTs);
  }

  lemma NewestUnique(a: Option<Entry>, b: Option<Entry>, es: set<Entry>, k: Key, readTs: Ts)
    requires IsNewest(a, es, k, readTs) && Functional(es)
    ensures IsNewest(b, es, k, readTs) <==> a == b
  {
  }

  // ---------------------------------------------------------------- executing a plan

  function FilesOf(ssts: seq<Sst>): set<C.File> { set f | f in ssts :: f.file }

  /** A file made of a slice, with the bounds its first and last entry give. */
  ghost predicate MadeOf(f: Sst, slice: seq<Entry>, level: nat) {
    && slice != [] && f.entries == slice && f.file.level == level
    && f.file.smallest == slice[0].key && f.file.largest == slice[|slice| - 1].key
  }

  method WriteSlices(slices: seq<seq<Entry>>, level: nat, outputId: nat, nextId: nat) returns (outputs: seq<Sst>)
    requires (forall s :: 0 <= s < |slices| ==> slices[s] != []) && outputId < nextId
    ensures |outputs| == |slices| && forall s :: 0 <= s < |slices| ==> MadeOf(outputs[s], slices[s], level)
    ensures forall s :: 0 <= s < |slices| ==> outputs[s].file.id == if s == 0 then outputId else nextId + s - 1
  {
    outputs := [];
    for s := 0 to |slices|
      invariant |outputs| == s && forall t :: 0 <= t < s ==> MadeOf(outputs[t], slices[t], level)
      invariant forall t :: 0 <= t < s ==> outputs[t].file.id == if t == 0 then outputId else nextId + t - 1
    {
      var id := if s == 0 then outputId else nextId + s - 1;
      var slice := slices[s];
      outputs := outputs + [Sst(C.File(id, level, slice[0].key, slice[|slice| - 1].key), slice)];
    }
  }

  lemma {:induction false} PiecesNonEmpty(out: seq<seq<Entry>>, size: Entry -> nat, budget: nat, s: nat)
    requires Split.Pieces(out, size, budget) && s < |out|
    ensures out[s] != []
    decreases |out|
  {
    if s < |out| - 1 { PiecesNonEmpty(out[..|out| - 1], size, budget, s); }
  }

  lemma {:induction false} ConcatHolds(out: seq<seq<Entry>>, e: Entry)
    requires e in Split.Concat(out)
    ensures exists s :: 0 <= s < |out| && e in out[s]
    decreases |out|
  {
    if e in out[|out| - 1] {
    } else {
      ConcatHolds(out[..|out| - 1], e);
      var s :| 0 <= s < |out| - 1 && e in out[..|out| - 1][s];
      assert e in out[s];
    }
  }

  lemma {:induction false} SliceSorted(out: seq<seq<Entry>>, s: nat)
    requires Split.KeySorted(Split.Concat(out)) && s < |out|
    ensures Split.KeySorted(out[s])
    decreases |out|
  {
    var front, last := out[..|out| - 1], out[|out| - 1];
    var es, n := Split.Concat(out), |Split.Concat(front)|;
    if s < |out| - 1 {
      assert forall i :: 0 <= i < n ==> Split.Concat(front)[i] == es[i];
      SliceSorted(front, s);
      assert front[s] == out[s];
    } else {
      assert forall i :: 0 <= i < |last| ==> last[i] == es[n + i];
    }
  }

  lemma SliceBounded(f: Sst, slice: seq<Entry>, level: nat)
    requires MadeOf(f, slice, level) && Split.KeySorted(slice)
    ensures Bounded(f) && f.file.smallest <= f.file.largest
  {
    forall e | e in slice ensures slice[0].key <= e.key <= slice[|slice| - 1].key {
      var i :| 0 <= i < |slice| && slice[i] == e;
    }
  }

  lemma OrderedIsSorted(out: seq<Entry>)
    requires Ordered(out)
    ensures Split.KeySorted(out)
  {
  }

  /** The newest version of any key survives, so a merge of something is something. */
  lemma MergeNonEmpty(merged: seq<Entry>, es: set<Entry>, watermark: Ts, e: Entry)
    requires MergeOf(merged, es, watermark) && e in es
    ensures merged != []
  {
    assert e.ts in Times(es, e.key);
    var m := Newest(Times(es, e.key));
    var x :| x in es && x.key == e.key && x.ts == m;
    assert Kept(es, x, watermark);
    assert Emitted(merged, x.key, x.ts);
  }

  /** The slices as files: contents, bounds, and no overlap. */
  ghost predicate FilesMade(outputs: seq<Sst>, merged: seq<Entry>, level: nat) {
    && InRuns(EntriesOf(outputs)) == SetOf(merged)
    && (forall s :: 0 <= s < |outputs| ==> Bounded(outputs[s]) && MadeOf(outputs[s], outputs[s].entries, level))
    && (forall s, t :: 0 <= s < t < |outputs| ==> outputs[s].file.largest < outputs[t].file.smallest)
  }

  lemma SlicesHoldAll(slices: seq<seq<Entry>>, merged: seq<Entry>, outputs: seq<Sst>)
    requires Split.Concat(slices) == merged
    requires |outputs| == |slices| && forall s :: 0 <= s < |slices| ==> outputs[s].entries == slices[s]
    ensures InRuns(EntriesOf(outputs)) == SetOf(merged)
  {
    forall e ensures e in InRuns(EntriesOf(outputs)) <==> e in merged {
      if e in merged {
        ConcatHolds(slices, e);
        var s :| 0 <= s < |slices| && e in slices[s];
        var i :| 0 <= i < |slices[s]| && slices[s][i] == e;
        assert EntriesOf(outputs)[s][i] == e;
      }
      if e in InRuns(EntriesOf(outputs)) {
        var s, i :| 0 <= s < |outputs| && 0 <= i < |EntriesOf(outputs)[s]| && EntriesOf(outputs)[s][i] == e;
        assert e in slices[s];
        Split.InConcat(slices, s, e);
      }
    }
  }

  lemma SlicesMakeFiles(slices: seq<seq<Entry>>, merged: seq<Entry>, size: Entry -> nat, budget: nat,
                        outputs: seq<Sst>, level: nat)
    requires Ordered(merged) && Split.SplitOf(slices, merged, size, budget)
    requires |outputs| == |slices| && forall s :: 0 <= s < |slices| ==> MadeOf(outputs[s], slices[s], level)
    ensures FilesMade(outputs, merged, level)
  {
    OrderedIsSorted(merged);
    SlicesHoldAll(slices, merged, outputs);
    forall s | 0 <= s < |outputs| ensures Bounded(outputs[s]) {
      SliceSorted(slices, s);
      SliceBounded(outputs[s], slices[s], level);
    }
    forall s, t | 0 <= s < t < |outputs| ensures outputs[s].file.largest < outputs[t].file.smallest {
      assert MadeOf(outputs[s], slices[s], level) && MadeOf(outputs[t], slices[t], level);
      Split.RangesAscend(slices, size, budget, s, t, slices[s][|slices[s]| - 1], slices[t][0]);
    }
  }

  /** An entry of the inputs lies in the range of an input file. */
  lemma InputHit(inputs: seq<Sst>, e: Entry)
    requires e in InRuns(EntriesOf(inputs)) && forall i :: 0 <= i < |inputs| ==> Bounded(inputs[i])
    ensures C.Hits(FilesOf(inputs), e.key)
  {
    var s, i :| 0 <= s < |inputs| && 0 <= i < |EntriesOf(inputs)[s]| && EntriesOf(inputs)[s][i] == e;
    assert e in inputs[s].entries && Bounded(inputs[s]);
    assert inputs[s] in inputs && inputs[s].file in FilesOf(inputs);
  }

  lemma OutputHits(inputs: seq<Sst>, merged: seq<Entry>, watermark: Ts, outputs: seq<Sst>, level: nat, s: nat)
    requires forall i :: 0 <= i < |inputs| ==> Bounded(inputs[i])
    requires MergeOf(merged, InRuns(EntriesOf(inputs)), watermark) && FilesMade(outputs, merged, level) && s < |outputs|
    ensures var o := outputs[s].file;
      o.level == level && o.smallest <= o.largest && C.Hits(FilesOf(inputs), o.smallest) &&
      C.Hits(FilesOf(inputs), o.largest)
  {
    var f := outputs[s];
    var first, last := f.entries[0], f.entries[|f.entries| - 1];
    assert EntriesOf(outputs)[s][0] == first && EntriesOf(outputs)[s][|f.entries| - 1] == last;
    assert first in InRuns(EntriesOf(outputs)) && last in InRuns(EntriesOf(outputs));
    InputHit(inputs, first);
    InputHit(inputs, last);
    assert last in f.entries;
  }

  lemma OutputsProduced(p: C.Plan, inputs: seq<Sst>, merged: seq<Entry>, watermark: Ts, outputs: seq<Sst>)
    requires FilesOf(inputs) == p.inputs && forall i :: 0 <= i < |inputs| ==> Bounded(inputs[i])
    requires MergeOf(merged, InRuns(EntriesOf(inputs)), watermark) && FilesMade(outputs, merged, p.source + 1) &&
             outputs != []
    requires forall s, t :: 0 <= s < t < |outputs| ==> outputs[s].file.id != outputs[t].file.id
    ensures C.Produced(p, FilesOf(outputs))
  {
    assert outputs[0] in outputs && outputs[0].file in FilesOf(outputs);
    forall o | o in FilesOf(outputs)
      ensures o.level == p.source + 1 && o.smallest <= o.largest && C.Hits(p.inputs, o.smallest) &&
              C.Hits(p.inputs, o.largest)
    {
      var s :| 0 <= s < |outputs| && outputs[s].file == o;
      OutputHits(inputs, merged, watermark, outputs, p.source + 1, s);
    }
    forall o, q | o in FilesOf(outputs) && q in FilesOf(outputs) && o != q
      ensures o.id != q.id && !C.Overlaps(o, q.smallest, q.largest)
    {
      var s :| 0 <= s < |outputs| && outputs[s].file == o;
      var t :| 0 <= t < |outputs| && outputs[t].file == q;
      assert s != t;
    }
  }

  /** `execute_plan` between reservation and install: merge, split, write. */
  method ExecutePlan(inputs: seq<Sst>, p: C.Plan, watermark: Ts, maxBytes: nat, size: Entry -> nat, outputId: nat,
                     nextId: nat)
    returns (outputs: seq<Sst>, ghost merged: seq<Entry>)
    requires inputs != [] && FilesOf(inputs) == p.inputs && outputId < nextId && maxBytes > 0
    requires forall i :: 0 <= i < |inputs| ==>
      inputs[i].entries != [] && KeySorted(inputs[i].entries) && Bounded(inputs[i])
    ensures MergeOf(merged, InRuns(EntriesOf(inputs)), watermark)
    ensures InRuns(EntriesOf(outputs)) == SetOf(merged) && forall s :: 0 <= s < |outputs| ==> Bounded(outputs[s])
    ensures C.Produced(p, FilesOf(outputs))
  {
    var all := MergeAll(EntriesOf(inputs), watermark);
    merged := all;
    assert EntriesOf(inputs)[0][0] in InRuns(EntriesOf(inputs));
    MergeNonEmpty(all, InRuns(EntriesOf(inputs)), watermark, EntriesOf(inputs)[0][0]);
    var slices := Split.SplitByMaxBytes(all, maxBytes, size);
    forall s | 0 <= s < |slices| ensures slices[s] != [] { PiecesNonEmpty(slices, size, Split.Budget(maxBytes), s); }
    outputs := WriteSlices(slices, p.source + 1, outputId, nextId);
    SlicesMakeFiles(slices, all, size, Split.Budget(maxBytes), outputs, p.source + 1);
    OutputsProduced(p, inputs, all, watermark, outputs);
  }

  /** For a whole tree: once the inputs of a plan are replaced by what `ExecutePlan` made of
      them, `GetAt` at `watermark - 1` or later answers exactly as before. */
  lemma PlanKeepsLookups(active: seq<Entry>, immutable: Option<seq<Entry>>, before: seq<seq<Sst>>,
                         after: seq<seq<Sst>>, others: set<Entry>,
                         inputs: seq<Sst>, merged: seq<Entry>, outputs: seq<Sst>, watermark: Ts, k: Key, readTs: Ts,
                         b: Option<Entry>)
    requires Contents(before) == others + InRuns(EntriesOf(inputs)) &&
             Contents(after) == others + InRuns(EntriesOf(outputs))
    requires MergeOf(merged, InRuns(EntriesOf(inputs)), watermark) && InRuns(EntriesOf(outputs)) == SetOf(merged)
    requires Functional(Everything(active, immutable, before)) && watermark <= readTs + 1
    ensures IsNewest(b, Everything(active, immutable, before), k, readTs) <==>
      IsNewest(b, Everything(active, immutable, after), k, readTs)
  {
    var elsewhere := SetOf(active) + (if immutable.Some? then SetOf(immutable.value) else {}) + others;
    assert Everything(active, immutable, before) == elsewhere + InRuns(EntriesOf(inputs));
    assert Everything(active, immutable, after) == elsewhere + SetOf(merged);
    CompactionKeepsReads(elsewhere, InRuns(EntriesOf(inputs)), merged, watermark, k, readTs, b);
  }

  // ---------------------------------------------------------------- compaction as collection

  function KeyOf(e: Entry): InternalKey { InternalKey(e.key, e.ts) }

  /** The store st is the one the entries stand for. */
  ghost predicate StandsFor(es: set<Entry>, st: Store) {
    && (forall e :: e in es ==> KeyOf(e) in st && st[KeyOf(e)] == e.value)
    && (forall ik :: ik in st ==> exists e :: e in es && KeyOf(e) == ik)
  }

  /** What a merge drops has a newer version below the watermark in its inputs. */
  lemma DroppedHasNewer(inputs: set<Entry>, out: seq<Entry>, watermark: Ts, e: Entry) returns (x: Entry)
    requires MergeOf(out, inputs, watermark) && e in inputs && !Emitted(out, e.key, e.ts)
    ensures x in inputs && x.key == e.key && e.ts < x.ts < watermark
  {
    assert !Kept(inputs, e, watermark);
    assert e.ts in Times(inputs, e.key);
    var u :| u in Times(inputs, e.key) && u < watermark && u > e.ts;
    x :| x in inputs && x.key == e.key && x.ts == u;
  }

  lemma DroppedIsShadowed(elsewhere: set<Entry>, inputs: set<Entry>, out: seq<Entry>, watermark: Ts, before: Store,
                          after: Store, d: InternalKey)
    requires MergeOf(out, inputs, watermark) && d in before && d !in after
    requires StandsFor(elsewhere + inputs, before) && StandsFor(elsewhere + SetOf(out), after)
    ensures Shadowed(before, d, watermark)
  {
    var e :| e in elsewhere + inputs && KeyOf(e) == d;
    assert e !in elsewhere + SetOf(out);
    assert !Emitted(out, e.key, e.ts) by {
      forall o | o in out ensures KeyOf(o) != d { assert o in elsewhere + SetOf(out); }
    }
    var x := DroppedHasNewer(inputs, out, watermark, e);
    assert x in elsewhere + inputs && KeyOf(x) in before;
  }

  /** Seen on the whole store, a compaction is one of the collections that the transaction
      model allows: it drops only versions with a newer one below the watermark, and changes
      no value. */
  lemma CompactionIsCollection(elsewhere: set<Entry>, inputs: set<Entry>, out: seq<Entry>, watermark: Ts,
                               before: Store, after: Store)
    requires MergeOf(out, inputs, watermark)
    requires StandsFor(elsewhere + inputs, before) && StandsFor(elsewhere + SetOf(out), after)
    ensures Collectable(before, before.Keys - after.Keys, watermark) && after == before - (before.Keys - after.Keys)
  {
    forall d | d in before.Keys - after.Keys ensures Shadowed(before, d, watermark) {
      DroppedIsShadowed(elsewhere, inputs, out, watermark, before, after, d);
    }
    forall ik | ik in after ensures ik in before && after[ik] == before[ik] {
      var e :| e in elsewhere + SetOf(out) && KeyOf(e) == ik;
      assert e in elsewhere + inputs;
    }
  }
}
