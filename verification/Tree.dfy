/** The files of the LSM tree with what is in them, over runs of flushes, picks, merges and
    installs by any number of workers (src/lsm.rs, src/compaction.rs). */
module Tree {
  import opened Keys
  import opened Mvcc
  import opened Merge
  import opened Lsm
  import C = Catalog

  /** `data` gives the entries of each file, by id; `added` are all entries ever flushed, and
      `marks` the watermarks the merges so far have used. */
  datatype State = State(cat: C.State, data: map<nat, set<Entry>>, added: set<Entry>, marks: set<Ts>)

  const START := State(C.State({}, {}, {}, {}, 0), map[], {}, {})

  function Data(data: map<nat, set<Entry>>, id: nat): set<Entry> {
    if id in data then data[id] else {}
  }

  /** Everything in these files. */
  function InFiles(files: set<C.File>, data: map<nat, set<Entry>>): set<Entry> {
    set f, e | f in files && e in Data(data, f.id) :: e
  }

  function Contents(t: State): set<Entry> {
    InFiles(t.cat.files, t.data)
  }

  datatype Action =
    | Flush(file: C.File, entries: set<Entry>)
    | Install(plan: C.Plan, outputs: set<C.File>, made: map<nat, set<Entry>>, merged: seq<Entry>, watermark: Ts)
    | Other(action: C.Action)

  /** What `execute_plan` has written: the merge of the inputs, spread over the output files. */
  ghost predicate Made(t: State, a: Action)
    requires a.Install?
  {
    && MergeOf(a.merged, InFiles(a.plan.inputs, t.data), a.watermark)
    && a.made.Keys == C.Ids(a.outputs) && InFiles(a.outputs, a.made) == SetOf(a.merged)
  }

  ghost predicate Step(t: State, a: Action, t': State) {
    match a
    case Flush(f, es) =>
      && C.Step(t.cat, C.AddLevel0(f), t'.cat) && Functional(t.added + es)
      && t' == State(t'.cat, t.data[f.id := es], t.added + es, t.marks)
    case Install(p, outputs, made, _, w) =>
      && C.Step(t.cat, C.Install(p, outputs), t'.cat) && Made(t, a)
      && t' == State(t'.cat, (t.data - C.Ids(p.inputs)) + made, t.added, t.marks + {w})
    case Other(action) =>
      !action.AddLevel0? && !action.Install? && C.Step(t.cat, action, t'.cat) && t' == t.(cat := t'.cat)
  }

  ghost predicate StepAt(ts: seq<State>, acts: seq<Action>, i: nat)
    requires i < |acts| && |ts| == |acts| + 1
  {
    Step(ts[i], acts[i], ts[i + 1])
  }

  ghost predicate Run(ts: seq<State>, acts: seq<Action>) {
    && |ts| == |acts| + 1 && ts[0] == START
    && forall i :: 0 <= i < |acts| ==> StepAt(ts, acts, i)
  }

  // ---------------------------------------------------------------- invariant

  /** No merge so far was allowed to drop what a snapshot at `readTs` needs. */
  ghost predicate Spared(marks: set<Ts>, readTs: Ts) {
    forall w :: w in marks ==> w <= readTs + 1
  }

  /** For every version ever flushed, the tree has one as new that the snapshot also sees. */
  ghost predicate StillSeen(here: set<Entry>, e: Entry, readTs: Ts) {
    exists x :: x in here && Visible(x, e.key, readTs) && e.ts <= x.ts
  }

  ghost predicate AllSeen(here: set<Entry>, added: set<Entry>, readTs: Ts) {
    forall e :: e in added && e.ts <= readTs ==> StillSeen(here, e, readTs)
  }

  ghost predicate Complete(here: set<Entry>, added: set<Entry>, marks: set<Ts>) {
    forall readTs: Ts :: Spared(marks, readTs) ==> AllSeen(here, added, readTs)
  }

  ghost predicate Inv(t: State) {
    && C.Inv(t.cat) && Functional(t.added) && Contents(t) <= t.added
    && Complete(Contents(t), t.added, t.marks)
  }

  // ---------------------------------------------------------------- flush

  lemma FlushContents(t: State, f: C.File, es: set<Entry>)
    requires f.id !in C.Ids(t.cat.files)
    ensures InFiles(t.cat.files + {f}, t.data[f.id := es]) == Contents(t) + es
  {
    var data' := t.data[f.id := es];
    forall g | g in t.cat.files ensures Data(data', g.id) == Data(t.data, g.id) { assert g.id in C.Ids(t.cat.files); }
    assert Data(data', f.id) == es;
  }

  lemma MoreSeen(here: set<Entry>, added: set<Entry>, marks: set<Ts>, es: set<Entry>)
    requires Complete(here, added, marks)
    ensures Complete(here + es, added + es, marks)
  {
    forall readTs: Ts | Spared(marks, readTs) ensures AllSeen(here + es, added + es, readTs) {
      assert AllSeen(here, added, readTs);
      forall e | e in added + es && e.ts <= readTs ensures StillSeen(here + es, e, readTs) {
        if e in es {
          assert Visible(e, e.key, readTs);
        } else {
          assert StillSeen(here, e, readTs);
        }
      }
    }
  }

  lemma FlushKeeps(t: State, f: C.File, es: set<Entry>, t': State)
    requires Inv(t) && Step(t, Flush(f, es), t')
    ensures Inv(t')
  {
    assert f.id !in C.Ids(t.cat.files);
    C.StepKeepsInv(t.cat, C.AddLevel0(f), t'.cat);
    FlushContents(t, f, es);
    MoreSeen(Contents(t), t.added, t.marks, es);
  }

  // ---------------------------------------------------------------- install

  /** A merge leaves, for every visible input, an output that is as new. */
  lemma MergeSeen(inputs: set<Entry>, merged: seq<Entry>, watermark: Ts, x: Entry, k: Key, readTs: Ts)
    requires MergeOf(merged, inputs, watermark) && x in inputs && Visible(x, k, readTs) && watermark <= readTs + 1
    ensures exists y :: y in SetOf(merged) && Visible(y, k, readTs) && x.ts <= y.ts
  {
    var b := NewestExists(inputs, k, readTs);
    NewestIsKept(inputs, b.value, k, readTs, watermark);
    assert Emitted(merged, b.value.key, b.value.ts);
    var y :| y in merged && y.key == b.value.key && y.ts == b.value.ts;
    assert y in SetOf(merged);
  }

  lemma MergedStillSeen(others: set<Entry>, inputs: set<Entry>, merged: seq<Entry>, w: Ts, e: Entry, readTs: Ts)
    requires MergeOf(merged, inputs, w) && w <= readTs + 1 && StillSeen(others + inputs, e, readTs)
    ensures StillSeen(others + SetOf(merged), e, readTs)
  {
    var x :| x in others + inputs && Visible(x, e.key, readTs) && e.ts <= x.ts;
    if x !in others {
      MergeSeen(inputs, merged, w, x, e.key, readTs);
      var y :| y in SetOf(merged) && Visible(y, e.key, readTs) && x.ts <= y.ts;
      assert y in others + SetOf(merged);
    } else {
      assert x in others + SetOf(merged);
    }
  }

  lemma MergeComplete(others: set<Entry>, inputs: set<Entry>, merged: seq<Entry>, w: Ts, added: set<Entry>,
                      marks: set<Ts>)
    requires MergeOf(merged, inputs, w) && Complete(others + inputs, added, marks)
    ensures Complete(others + SetOf(merged), added, marks + {w})
  {
    forall readTs: Ts | Spared(marks + {w}, readTs) ensures AllSeen(others + SetOf(merged), added, readTs) {
      assert w in marks + {w} && Spared(marks, readTs);
      assert AllSeen(others + inputs, added, readTs);
      forall e | e in added && e.ts <= readTs ensures StillSeen(others + SetOf(merged), e, readTs) {
        assert StillSeen(others + inputs, e, readTs);
        MergedStillSeen(others, inputs, merged, w, e, readTs);
      }
    }
  }

  /** Installing replaces exactly the inputs' entries by the outputs', because ids identify
      files and the outputs' ids are new. */
  lemma InstallContents(files: set<C.File>, data: map<nat, set<Entry>>, inputs: set<C.File>, outputs: set<C.File>,
                        made: map<nat, set<Entry>>)
    requires C.IdsUnique(files) && inputs <= files && C.Ids(outputs) !! C.Ids(files) && made.Keys == C.Ids(outputs)
    ensures var others := InFiles(C.Remaining(files, inputs), data);
      && InFiles(files, data) == others + InFiles(inputs, data)
      && InFiles(C.Remaining(files, inputs) + outputs, (data - C.Ids(inputs)) + made) == others + InFiles(outputs, made)
  {
    var rest, data' := C.Remaining(files, inputs), (data - C.Ids(inputs)) + made;
    forall f | f in files ensures f in rest || f in inputs { C.DropExact(files, inputs, f); }
    forall f | f in rest ensures Data(data', f.id) == Data(data, f.id) { assert f.id in C.Ids(files); }
    forall o | o in outputs ensures Data(data', o.id) == Data(made, o.id) { assert o.id in C.Ids(outputs); }
    SplitFiles(rest, inputs, data);
    assert rest + inputs == files;
    SplitFiles(rest, outputs, data');
    SameData(rest, data, data');
    SameData(outputs, made, data');
  }

  lemma SplitFiles(a: set<C.File>, b: set<C.File>, data: map<nat, set<Entry>>)
    ensures InFiles(a + b, data) == InFiles(a, data) + InFiles(b, data)
  {
  }

  lemma SameData(files: set<C.File>, data: map<nat, set<Entry>>, data': map<nat, set<Entry>>)
    requires forall f :: f in files ==> Data(data', f.id) == Data(data, f.id)
    ensures InFiles(files, data') == InFiles(files, data)
  {
  }

  /** Before and after an install, in terms of what the merge read and wrote. */
  lemma InstallSwaps(t: State, a: Action, t': State)
    requires Inv(t) && Step(t, a, t') && a.Install?
    ensures var inputs := InFiles(a.plan.inputs, t.data);
      var others := InFiles(C.Remaining(t.cat.files, a.plan.inputs), t.data);
      Contents(t) == others + inputs && Contents(t') == others + SetOf(a.merged)
  {
    var s, p := t.cat, a.plan;
    C.PlansFacts(s, p);
    C.InstallNeverRejects(s, p, a.outputs);
    C.InstallFresh(s, p, a.outputs);
    InstallContents(s.files, t.data, p.inputs, a.outputs, a.made);
  }

  lemma InstallKeeps(t: State, a: Action, t': State)
    requires Inv(t) && Step(t, a, t') && a.Install?
    ensures Inv(t')
  {
    var others, inputs := InFiles(C.Remaining(t.cat.files, a.plan.inputs), t.data), InFiles(a.plan.inputs, t.data);
    C.StepKeepsInv(t.cat, C.Install(a.plan, a.outputs), t'.cat);
    InstallSwaps(t, a, t');
    MergeComplete(others, inputs, a.merged, a.watermark, t.added, t.marks);
    forall e | e in SetOf(a.merged) ensures e in inputs {}
  }

  lemma OtherKeeps(t: State, action: C.Action, t': State)
    requires Inv(t) && Step(t, Other(action), t')
    ensures Inv(t')
  {
    C.StepKeepsInv(t.cat, action, t'.cat);
    SameFiles(t, action, t');
  }

  lemma SameFiles(t: State, action: C.Action, t': State)
    requires Step(t, Other(action), t')
    ensures Contents(t') == Contents(t) && t'.added == t.added && t'.marks == t.marks
  {
    assert t'.cat.files == t.cat.files;
  }

  lemma StepKeepsInv(t: State, a: Action, t': State)
    requires Inv(t) && Step(t, a, t')
    ensures Inv(t')
  {
    match a
    case Flush(f, es) => FlushKeeps(t, f, es, t');
    case Install(_, _, _, _, _) => InstallKeeps(t, a, t');
    case Other(action) => OtherKeeps(t, action, t');
  }

  lemma {:induction false} RunKeepsInv(ts: seq<State>, acts: seq<Action>, n: nat)
    requires Run(ts, acts) && n < |ts|
    ensures Inv(ts[n])
  {
    if n > 0 {
      RunKeepsInv(ts, acts, n - 1);
      assert StepAt(ts, acts, n - 1);
      StepKeepsInv(ts[n - 1], acts[n - 1], ts[n]);
    }
  }

  // ---------------------------------------------------------------- main results

  /** In every run, a lookup at a snapshot that the merges so far have spared finds in the
      tree, with whatever the memtables hold, exactly what it would find if every version ever
      flushed were still there. */
  lemma CompactionNeverShows(ts: seq<State>, acts: seq<Action>, n: nat, above: set<Entry>, k: Key, readTs: Ts,
                             b: Option<Entry>)
    requires Run(ts, acts) && n < |ts| && Spared(ts[n].marks, readTs) && Functional(above + ts[n].added)
    ensures IsNewest(b, above + Contents(ts[n]), k, readTs) <==> IsNewest(b, above + ts[n].added, k, readTs)
  {
    RunKeepsInv(ts, acts, n);
    var here, added := Contents(ts[n]), ts[n].added;
    assert AllSeen(here, added, readTs);
    SameNewest(above, here, added, k, readTs, b);
  }

  lemma SameNewest(above: set<Entry>, here: set<Entry>, added: set<Entry>, k: Key, readTs: Ts, b: Option<Entry>)
    requires here <= added && AllSeen(here, added, readTs) && Functional(above + added)
    ensures IsNewest(b, above + here, k, readTs) <==> IsNewest(b, above + added, k, readTs)
  {
    forall e | e in added && Visible(e, k, readTs)
      ensures exists x :: x in above + here && Visible(x, k, readTs) && e.ts <= x.ts
    {
      assert StillSeen(here, e, readTs);
      var x :| x in here && Visible(x, e.key, readTs) && e.ts <= x.ts;
      assert x in above + here;
    }
    if IsNewest(b, above + added, k, readTs) && b.Some? {
      NewestIsHere(above, here, added, k, readTs, b.value);
    }
  }

  /** The newest of everything ever flushed is still in the tree. */
  lemma NewestIsHere(above: set<Entry>, here: set<Entry>, added: set<Entry>, k: Key, readTs: Ts, x: Entry)
    requires here <= added && AllSeen(here, added, readTs) && Functional(above + added)
    requires IsNewest(Some(x), above + added, k, readTs)
    ensures x in above + here
  {
    if x in added {
      assert StillSeen(here, x, readTs);
      var y :| y in here && Visible(y, x.key, readTs) && x.ts <= y.ts;
      SameEntry(above + added, x, y, k, readTs);
    }
  }

  lemma SameEntry(es: set<Entry>, x: Entry, y: Entry, k: Key, readTs: Ts)
    requires Functional(es) && IsNewest(Some(x), es, k, readTs) && y in es && Visible(y, k, readTs) && x.ts <= y.ts
    ensures x == y
  {
  }

  /** One install, derived from the catalog: lookups from `watermark - 1` on answer as before. */
  lemma InstallKeepsLookups(ts: seq<State>, acts: seq<Action>, n: nat, above: set<Entry>, k: Key, readTs: Ts,
                            b: Option<Entry>)
    requires Run(ts, acts) && n < |acts| && acts[n].Install? && acts[n].watermark <= readTs + 1
    requires Functional(above + Contents(ts[n]))
    ensures IsNewest(b, above + Contents(ts[n]), k, readTs) <==> IsNewest(b, above + Contents(ts[n + 1]), k, readTs)
  {
    RunKeepsInv(ts, acts, n);
    assert StepAt(ts, acts, n);
    var t, a := ts[n], acts[n];
    var others, inputs := InFiles(C.Remaining(t.cat.files, a.plan.inputs), t.data), InFiles(a.plan.inputs, t.data);
    InstallSwaps(t, a, ts[n + 1]);
    assert above + Contents(t) == above + others + inputs;
    assert above + Contents(ts[n + 1]) == above + others + SetOf(a.merged);
    CompactionKeepsReads(above + others, inputs, a.merged, a.watermark, k, readTs, b);
  }

  // ---------------------------------------------------------------- the tree a reader walks

  /** The level lists a reader walks are those of the catalog, with the files' entries. */
  ghost predicate Shows(levels: seq<seq<Sst>>, t: State) {
    && (forall l, i :: 0 <= l < |levels| && 0 <= i < |levels[l]| ==>
          levels[l][i].file in t.cat.files && SetOf(levels[l][i].entries) == Data(t.data, levels[l][i].file.id))
    && (forall f :: f in t.cat.files ==> Listed(levels, f))
  }

  ghost predicate Listed(levels: seq<seq<Sst>>, f: C.File) {
    exists l, i :: 0 <= l < |levels| && 0 <= i < |levels[l]| && levels[l][i].file == f
  }

  lemma ShownContents(levels: seq<seq<Sst>>, t: State)
    requires Shows(levels, t)
    ensures Lsm.Contents(levels) == Contents(t)
  {
    forall e | e in Lsm.Contents(levels) ensures e in Contents(t) {
      var l, i :| 0 <= l < |levels| && 0 <= i < |levels[l]| && e in levels[l][i].entries;
      assert e in SetOf(levels[l][i].entries);
    }
    forall e | e in Contents(t) ensures e in Lsm.Contents(levels) {
      var f :| f in t.cat.files && e in Data(t.data, f.id);
      assert Listed(levels, f);
      var l, i :| 0 <= l < |levels| && 0 <= i < |levels[l]| && levels[l][i].file == f;
      assert e in SetOf(levels[l][i].entries);
    }
  }

  /** What `Lsm.GetAt` answers on the levels of any reachable tree: the newest version the
      snapshot may see of everything that was ever flushed or is in a memtable. */
  lemma LookupsAreExact(ts: seq<State>, acts: seq<Action>, n: nat, active: seq<Entry>, immutable: Option<seq<Entry>>,
                        levels: seq<seq<Sst>>, k: Key, readTs: Ts, b: Option<Entry>)
    requires Run(ts, acts) && n < |ts| && Shows(levels, ts[n]) && Spared(ts[n].marks, readTs)
    requires Functional(SetOf(active) + (if immutable.Some? then SetOf(immutable.value) else {}) + ts[n].added)
    ensures IsNewest(b, Everything(active, immutable, levels), k, readTs) <==>
            IsNewest(b, SetOf(active) + (if immutable.Some? then SetOf(immutable.value) else {}) + ts[n].added, k,
                     readTs)
  {
    var above := SetOf(active) + (if immutable.Some? then SetOf(immutable.value) else {});
    ShownContents(levels, ts[n]);
    CompactionNeverShows(ts, acts, n, above, k, readTs, b);
  }
}
