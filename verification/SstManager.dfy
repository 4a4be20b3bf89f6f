/** The catalog as the program keeps it: one list of files per level, a set of reserved
    ids, and the pick, abort and install sections updating them. */
module SstManager {
  import opened Keys
  import C = Catalog

  type File = C.File

  datatype CompactionPlan = CompactionPlan(source: nat, inputs: seq<File>, reserved: set<nat>, outputId: nat)

  function SetOf(files: seq<File>): set<File> { set f | f in files }

  /** All files of all levels. */
  ghost function Flat(levels: seq<seq<File>>): set<File> {
    set l, i | 0 <= l < |levels| && 0 <= i < |levels[l]| :: levels[l][i]
  }

  ghost predicate Tagged(levels: seq<seq<File>>) {
    forall l, i :: 0 <= l < |levels| && 0 <= i < |levels[l]| ==> levels[l][i].level == l
  }

  lemma InFlat(levels: seq<seq<File>>, f: File)
    requires Tagged(levels)
    ensures f in Flat(levels) <==> f.level < |levels| && f in levels[f.level]
  {
    if f.level < |levels| && f in levels[f.level] {
      var i :| 0 <= i < |levels[f.level]| && levels[f.level][i] == f;
      assert levels[f.level][i] in Flat(levels);
    }
  }

  /** `retain`: the files whose id is not dropped, in order. */
  function Keep(files: seq<File>, ids: set<nat>): (r: seq<File>)
    ensures forall f :: f in r <==> f in files && f.id !in ids
  {
    if files == [] then [] else (if files[0].id in ids then [] else [files[0]]) + Keep(files[1..], ids)
  }

  /** `filter(overlaps)` */
  function Overlapping(files: seq<File>, lo: Key, hi: Key): (r: seq<File>)
    ensures forall f :: f in r <==> f in files && C.Overlaps(f, lo, hi)
  {
    if files == [] then []
    else (if C.Overlaps(files[0], lo, hi) then [files[0]] else []) + Overlapping(files[1..], lo, hi)
  }

  // ---------------------------------------------------------------- overlap closure

  lemma CoversMore(files: set<File>, lo: Key, hi: Key, f: File)
    requires C.Covers(files, lo, hi) && f.smallest <= f.largest && C.Overlaps(f, lo, hi)
    ensures C.Covers(files + {f}, if f.smallest < lo then f.smallest else lo, if f.largest > hi then f.largest else hi)
  {
    var all := files + {f};
    var lo', hi' := if f.smallest < lo then f.smallest else lo, if f.largest > hi then f.largest else hi;
    forall k | lo' <= k <= hi' ensures C.Hits(all, k) {
      if lo <= k <= hi {
        assert C.Hits(files, k);
        var g :| g in files && g.smallest <= k <= g.largest;
        assert g in all;
      } else {
        assert f in all && f.smallest <= k <= f.largest;
      }
    }
  }

  /** Selected so far: no gap, nothing reserved, all of it from the level. */
  ghost predicate Selection(files: seq<File>, reserved: set<nat>, selected: seq<File>, lo: Key, hi: Key) {
    && selected != [] && C.Covers(SetOf(selected), lo, hi)
    && forall f :: f in selected ==> f in files && f.id !in reserved
  }

  ghost predicate ClosedUnder(files: seq<File>, selected: seq<File>, lo: Key, hi: Key, n: nat)
    requires n <= |files|
  {
    forall i :: 0 <= i < n && C.Overlaps(files[i], lo, hi) ==> files[i] in selected
  }

  ghost predicate Distinct(files: seq<File>) {
    && (forall i, j :: 0 <= i < j < |files| ==> files[i].id != files[j].id)
    && (forall i :: 0 <= i < |files| ==> files[i].smallest <= files[i].largest)
  }

  ghost predicate AllDistinct(levels: seq<seq<File>>) {
    forall l :: 0 <= l < |levels| ==> Distinct(levels[l])
  }

  /** One pass over the level: widens the selection by every unreserved overlapping file. */
  method ClosePass(files: seq<File>, reserved: set<nat>, selected0: seq<File>, lo0: Key, hi0: Key)
    returns (selected: seq<File>, lo: Key, hi: Key, changed: bool, blocked: bool)
    requires Distinct(files) && Selection(files, reserved, selected0, lo0, hi0)
    ensures Selection(files, reserved, selected, lo, hi) && SetOf(selected0) <= SetOf(selected)
    ensures changed ==> SetOf(selected0) < SetOf(selected)
    ensures !changed && !blocked ==> ClosedUnder(files, selected, lo, hi, |files|)
    ensures blocked ==> exists g :: g in files && g.id in reserved && C.Overlaps(g, lo, hi)
  {
    selected, lo, hi, changed, blocked := selected0, lo0, hi0, false, false;
    for i := 0 to |files|
      invariant Selection(files, reserved, selected, lo, hi) && SetOf(selected0) <= SetOf(selected)
      invariant changed ==> SetOf(selected0) < SetOf(selected)
      invariant !changed ==> ClosedUnder(files, selected, lo, hi, i)
    {
      var f := files[i];
      if !(exists g :: g in selected && g.id == f.id) && C.Overlaps(f, lo, hi) {
        if f.id in reserved {
          blocked := true;
          return;
        }
        CoversMore(SetOf(selected), lo, hi, f);
        assert SetOf(selected + [f]) == SetOf(selected) + {f};
        assert f in SetOf(selected + [f]) && f !in SetOf(selected);
        lo, hi := if f.smallest < lo then f.smallest else lo, if f.largest > hi then f.largest else hi;
        selected := selected + [f];
        changed := true;
      }
    }
  }

  /** The transitive overlap closure of a candidate; stops at a reserved file.  It ends
      because every further pass has one more file to its name. */
  method Close(files: seq<File>, reserved: set<nat>, candidate: File)
    returns (selected: seq<File>, lo: Key, hi: Key, blocked: bool)
    requires Distinct(files) && candidate in files && candidate.id !in reserved
    ensures Selection(files, reserved, selected, lo, hi) && candidate in selected
    ensures !blocked ==> ClosedUnder(files, selected, lo, hi, |files|)
    ensures blocked ==> exists g :: g in files && g.id in reserved && C.Overlaps(g, lo, hi)
  {
    selected, lo, hi := [candidate], candidate.smallest, candidate.largest;
    SingleCovers(candidate);
    var changed := true;
    blocked := false;
    while changed && !blocked
      invariant Selection(files, reserved, selected, lo, hi) && candidate in selected
      invariant !changed && !blocked ==> ClosedUnder(files, selected, lo, hi, |files|)
      invariant blocked ==> exists g :: g in files && g.id in reserved && C.Overlaps(g, lo, hi)
      decreases SetOf(files) - SetOf(selected), changed
    {
      ghost var before := SetOf(selected);
      selected, lo, hi, changed, blocked := ClosePass(files, reserved, selected, lo, hi);
      assert candidate in before && before <= SetOf(selected);
      assert SetOf(selected) <= SetOf(files);
    }
  }

  lemma SingleCovers(f: File)
    requires f.smallest <= f.largest
    ensures C.Covers(SetOf([f]), f.smallest, f.largest)
  {
    assert f in SetOf([f]);
  }

  lemma {:induction false} SpanExists(files: seq<File>) returns (lo: Key, hi: Key)
    requires files != []
    ensures C.Span(SetOf(files), lo, hi)
    decreases |files|
  {
    var f, rest := files[0], files[1..];
    if rest == [] {
      lo, hi := f.smallest, f.largest;
      assert f in SetOf(files);
    } else {
      var l, h := SpanExists(rest);
      var a :| a in SetOf(rest) && a.smallest == l;
      var b :| b in SetOf(rest) && b.largest == h;
      assert files == [f] + rest;
      lo, hi := if f.smallest < l then f.smallest else l, if f.largest > h then f.largest else h;
      assert f in SetOf(files) && a in SetOf(files) && b in SetOf(files);
    }
  }

  // ---------------------------------------------------------------- the catalog object

  datatype PickResult = TerminalLevel | Nothing | Picked(plan: CompactionPlan)

  class Manager {
    var levels: seq<seq<File>>
    var reserved: set<nat>
    var nextId: nat
    ghost var plans: set<C.Plan>
    ghost var held: set<nat>

    ghost predicate Valid()
      reads this
    {
      Tagged(levels) && AllDistinct(levels)
    }

    ghost function Model(): C.State
      reads this
    {
      C.State(Flat(levels), reserved, plans, held, nextId)
    }

    constructor (levelCount: nat)
      ensures Valid() && |levels| == levelCount && Model() == C.State({}, {}, {}, {}, 0)
    {
      levels := seq(levelCount, _ => []);
      reserved, nextId, plans, held := {}, 0, {}, {};
    }

    method AllocateSstId() returns (id: nat)
      modifies this`nextId, this`held
      ensures C.Step(old(Model()), C.Allocate, Model()) && id == old(nextId)
    {
      id := nextId;
      held := held + {id};
      nextId := nextId + 1;
    }

    /** `add_sst`: refuses an unknown level, an id already there, and an overlap above level 0. */
    method AddSst(meta: File) returns (ok: bool)
      requires Valid() && meta.smallest <= meta.largest
      modifies this`levels, this`held
      ensures Valid()
      ensures ok <==> (
        && meta.level < |old(levels)| && meta.id !in C.Ids(Flat(old(levels)))
        && (meta.level > 0 ==> forall f :: f in old(levels)[meta.level] ==>
              !C.Overlaps(f, meta.smallest, meta.largest)))
      ensures Model() ==
        if ok then old(Model()).(files := old(Model()).files + {meta}, held := old(held) - {meta.id}) else old(Model())
    {
      if meta.level >= |levels| { return false; }
      if exists l, i :: 0 <= l < |levels| && 0 <= i < |levels[l]| && levels[l][i].id == meta.id {
        ghost var l, i :| 0 <= l < |levels| && 0 <= i < |levels[l]| && levels[l][i].id == meta.id;
        assert levels[l][i] in Flat(levels);
        return false;
      }
      if meta.level > 0 && exists f :: f in levels[meta.level] && C.Overlaps(f, meta.smallest, meta.largest) {
        return false;
      }
      FlatPush(levels, meta);
      forall f | f in Flat(levels) ensures f.id != meta.id {}
      levels := levels[meta.level := levels[meta.level] + [meta]];
      held := held - {meta.id};
      ok := true;
    }

    /** Sources and targets for one candidate, unless something they need is reserved. */
    method Select(source: nat, candidate: File)
      returns (ok: bool, selected: seq<File>, lo: Key, hi: Key, targets: seq<File>)
      requires Valid() && source + 1 < |levels| && candidate in levels[source] && candidate.id !in reserved
      ensures ok ==> C.Selects(Flat(levels), reserved, source, SetOf(selected), lo, hi, SetOf(targets))
      ensures Selection(levels[source], reserved, selected, lo, hi) && candidate in selected
      ensures !ok ==>
        exists g :: (g in levels[source] || g in levels[source + 1]) && g.id in reserved && C.Overlaps(g, lo, hi)
    {
      targets := [];
      if source == 0 {
        var blocked;
        selected, lo, hi, blocked := Close(levels[0], reserved, candidate);
        if blocked { return false, selected, lo, hi, targets; }
      } else {
        selected, lo, hi := [candidate], candidate.smallest, candidate.largest;
        SingleCovers(candidate);
        assert SetOf(selected) == {candidate};
      }
      targets := Overlapping(levels[source + 1], lo, hi);
      if exists f :: f in targets && f.id in reserved { return false, selected, lo, hi, targets; }
      forall f ensures f in Flat(levels) <==> f.level < |levels| && f in levels[f.level] { InFlat(levels, f); }
      assert candidate in SetOf(selected);
      ok := true;
    }

    /** The end of a successful pick: everything selected becomes reserved. */
    method Reserve(source: nat, selected: seq<File>, ghost lo: Key, ghost hi: Key, targets: seq<File>)
      returns (p: CompactionPlan, ghost plan: C.Plan)
      requires C.Selects(Flat(levels), reserved, source, SetOf(selected), lo, hi, SetOf(targets)) && selected != []
      modifies this`reserved, this`plans, this`nextId
      ensures C.Picks(old(Model()), plan) && Model() == C.PickedUp(old(Model()), plan)
      ensures Describes(p, plan) && p.source == source
    {
      ghost var before := Model();
      plan := MakePlan(before, source, selected, lo, hi, targets);
      var inputs := selected + targets;
      var ids := C.Ids(SetOf(inputs));
      p := CompactionPlan(source, inputs, ids, nextId);
      reserved, plans, nextId := reserved + ids, plans + {plan}, nextId + 1;
    }

    /** `pick`: the first candidate that can be reserved with everything it needs. */
    method Pick(source: nat) returns (r: PickResult, ghost plan: C.Plan)
      requires Valid()
      modifies this`reserved, this`plans, this`nextId
      ensures Valid()
      ensures r == TerminalLevel <==> source + 1 >= |levels|
      ensures !r.Picked? ==> Model() == old(Model())
      ensures r == Nothing ==> forall c :: c in levels[source] && c.id !in reserved ==>
        Blocked(levels, reserved, source, c)
      ensures r.Picked? ==> C.Picks(old(Model()), plan) && Model() == C.PickedUp(old(Model()), plan)
      ensures r.Picked? ==> Describes(r.plan, plan) && r.plan.source == source
    {
      plan := C.Plan(0, {}, 0, 0.0, 0.0);
      if source + 1 >= |levels| { return TerminalLevel, plan; }
      var files := levels[source];
      for i := 0 to |files|
        invariant unchanged(this)
        invariant forall j :: 0 <= j < i && files[j].id !in reserved ==> Blocked(levels, reserved, source, files[j])
      {
        var candidate := files[i];
        if candidate.id !in reserved {
          var ok, selected, lo, hi, targets := Select(source, candidate);
          if ok {
            var p;
            p, plan := Reserve(source, selected, lo, hi, targets);
            return Picked(p), plan;
          }
        }
      }
      r := Nothing;
    }

    method Abort(plan: CompactionPlan, ghost p: C.Plan)
      requires Valid() && Describes(plan, p)
      modifies this`reserved, this`plans
      ensures Valid() && Model() == C.Aborted(old(Model()), p)
    {
      reserved := reserved - plan.reserved;
      plans := plans - {p};
    }

    /** `install_outputs`.  Nothing there looks at the ids of the outputs; the ids of the catalog
        stay distinct exactly when those do, and fresh ones from `AllocateSstId` do. */
    method InstallOutputs(plan: CompactionPlan, ghost p: C.Plan, outputs: seq<File>) returns (ok: bool)
      requires Valid() && Describes(plan, p) && plan.source + 1 < |levels|
      modifies this`levels, this`reserved, this`plans, this`held
      ensures ok <==> C.InstallAccepts(old(Model()), p, SetOf(outputs)) && PairwiseApart(outputs)
      ensures Model() == if ok then C.Installed(old(Model()), p, SetOf(outputs)) else old(Model())
      ensures Valid() <==> (ok ==> Distinct(Keep(old(levels)[plan.source + 1], plan.reserved) + outputs))
      ensures Distinct(outputs) && C.Ids(SetOf(outputs)) !! C.Ids(Flat(old(levels))) ==> Valid()
    {
      ok := Accepts(plan, p, outputs);
      FreshIsDistinct(levels, plan.reserved, outputs, plan.source + 1);
      if ok { Replace(plan, p, outputs); }
    }

    method Replace(plan: CompactionPlan, ghost p: C.Plan, outputs: seq<File>)
      requires Valid() && Describes(plan, p) && plan.source + 1 < |levels|
      requires forall o :: o in outputs ==> o.level == plan.source + 1
      modifies this`levels, this`reserved, this`plans, this`held
      ensures Model() == C.Installed(old(Model()), p, SetOf(outputs))
      ensures Valid() <==> Distinct(Keep(old(levels)[plan.source + 1], plan.reserved) + outputs)
    {
      Replaced(levels, p, outputs);
      levels := Renewed(levels, plan.reserved, outputs, plan.source + 1);
      reserved := reserved - plan.reserved;
      plans := plans - {p};
      held := held - C.Ids(SetOf(outputs));
    }

    /** All the checks of `install_outputs`. */
    method Accepts(plan: CompactionPlan, ghost p: C.Plan, outputs: seq<File>) returns (ok: bool)
      requires Valid() && Describes(plan, p) && plan.source + 1 < |levels|
      ensures ok <==> C.InstallAccepts(Model(), p, SetOf(outputs)) && PairwiseApart(outputs)
      ensures ok ==> forall o :: o in outputs ==> o.level == plan.source + 1
    {
      var ls: seq<seq<File>> := levels;
      var present := set l, i | 0 <= l < |ls| && 0 <= i < |ls[l]| && ls[l][i].id in plan.reserved :: ls[l][i].id;
      var clear := OutputsClear(levels[plan.source + 1], plan.reserved, outputs, plan.source + 1);
      var apart := OutputsApart(outputs);
      ok := outputs != [] && plan.reserved <= reserved && present == plan.reserved && clear && apart;
      PresentExact(ls, plan.reserved);
      AcceptsExact(ls, reserved, p, outputs, Model());
    }
  }

  method OutputsClear(files: seq<File>, ids: set<nat>, outputs: seq<File>, level: nat) returns (ok: bool)
    ensures ok <==> Clear(files, ids, outputs, level)
  {
    for i := 0 to |outputs|
      invariant forall j :: 0 <= j < i ==> OutputClear(files, ids, outputs[j], level)
    {
      var o := outputs[i];
      if o.level != level { return false; }
      if exists f :: f in files && f.id !in ids && C.Overlaps(f, o.smallest, o.largest) { return false; }
    }
    ok := true;
  }

  ghost predicate OutputClear(files: seq<File>, ids: set<nat>, o: File, level: nat) {
    o.level == level && forall f :: f in files && f.id !in ids ==> !C.Overlaps(f, o.smallest, o.largest)
  }

  ghost predicate Clear(files: seq<File>, ids: set<nat>, outputs: seq<File>, level: nat) {
    forall j :: 0 <= j < |outputs| ==> OutputClear(files, ids, outputs[j], level)
  }

  ghost predicate PairwiseApart(outputs: seq<File>) {
    forall i, j :: 0 <= i < j < |outputs| ==> !C.Overlaps(outputs[i], outputs[j].smallest, outputs[j].largest)
  }

  method OutputsApart(outputs: seq<File>) returns (ok: bool)
    ensures ok <==> PairwiseApart(outputs)
  {
    for i := 0 to |outputs|
      invariant forall a, b :: 0 <= a < i && a < b < |outputs| ==>
        !C.Overlaps(outputs[a], outputs[b].smallest, outputs[b].largest)
    {
      for j := i + 1 to |outputs|
        invariant forall b :: i < b < j ==> !C.Overlaps(outputs[i], outputs[b].smallest, outputs[b].largest)
      {
        if C.Overlaps(outputs[i], outputs[j].smallest, outputs[j].largest) { return false; }
      }
    }
    ok := true;
  }

  lemma PresentExact(levels: seq<seq<File>>, ids: set<nat>)
    ensures ids <= C.Ids(Flat(levels)) <==>
      ids == set l, i | 0 <= l < |levels| && 0 <= i < |levels[l]| && levels[l][i].id in ids :: levels[l][i].id
  {
    var present := set l, i | 0 <= l < |levels| && 0 <= i < |levels[l]| && levels[l][i].id in ids :: levels[l][i].id;
    forall x | x in ids ensures x in present <==> x in C.Ids(Flat(levels)) {
      if x in C.Ids(Flat(levels)) {
        var f :| f in Flat(levels) && f.id == x;
        var l, i :| 0 <= l < |levels| && 0 <= i < |levels[l]| && levels[l][i] == f;
        assert levels[l][i].id in present;
      }
      if x in present {
        var l, i :| 0 <= l < |levels| && 0 <= i < |levels[l]| && levels[l][i].id == x;
        assert levels[l][i] in Flat(levels);
      }
    }
  }

  lemma AcceptsExact(levels: seq<seq<File>>, reserved: set<nat>, p: C.Plan, outputs: seq<File>, s: C.State)
    requires Tagged(levels) && p.source + 1 < |levels| && s.files == Flat(levels) && s.reserved == reserved
    ensures C.InstallAccepts(s, p, SetOf(outputs)) && PairwiseApart(outputs) <==> (
      && outputs != [] && C.Ids(p.inputs) <= reserved && C.Ids(p.inputs) <= C.Ids(Flat(levels))
      && Clear(levels[p.source + 1], C.Ids(p.inputs), outputs, p.source + 1) && PairwiseApart(outputs))
    ensures Clear(levels[p.source + 1], C.Ids(p.inputs), outputs, p.source + 1) ==> forall o :: o in outputs ==>
      o.level == p.source + 1
  {
    var ids := C.Ids(p.inputs);
    assert outputs != [] <==> SetOf(outputs) != {} by { if outputs != [] { assert outputs[0] in SetOf(outputs); } }
    ClearExact(levels, ids, outputs, p.source + 1);
    if PairwiseApart(outputs) { ApartExact(outputs); }
  }

  lemma ClearExact(levels: seq<seq<File>>, ids: set<nat>, outputs: seq<File>, level: nat)
    requires Tagged(levels) && level < |levels|
    ensures Clear(levels[level], ids, outputs, level) <==> (
      && (forall o :: o in SetOf(outputs) ==> o.level == level)
      && (forall o, f :: o in SetOf(outputs) && f in Flat(levels) && f.level == o.level && f.id !in ids ==>
            !C.Overlaps(f, o.smallest, o.largest)))
  {
    forall f ensures f in Flat(levels) <==> f.level < |levels| && f in levels[f.level] { InFlat(levels, f); }
    forall f | f in levels[level] ensures f.level == level {}
    forall j | 0 <= j < |outputs| ensures outputs[j] in SetOf(outputs) {}
  }

  lemma ApartExact(outputs: seq<File>)
    requires PairwiseApart(outputs)
    ensures forall o, q :: o in SetOf(outputs) && q in SetOf(outputs) && o != q ==>
      !C.Overlaps(o, q.smallest, q.largest)
  {
    forall o, q | o in SetOf(outputs) && q in SetOf(outputs) && o != q ensures !C.Overlaps(o, q.smallest, q.largest) {
      var i :| 0 <= i < |outputs| && outputs[i] == o;
      var j :| 0 <= j < |outputs| && outputs[j] == q;
      assert i != j;
    }
  }

  lemma MakePlan(s: C.State, source: nat, selected: seq<File>, lo: Key, hi: Key, targets: seq<File>)
    returns (plan: C.Plan)
    requires C.Selects(s.files, s.reserved, source, SetOf(selected), lo, hi, SetOf(targets)) && selected != []
    ensures C.Picks(s, plan) && plan.source == source && plan.inputs == SetOf(selected + targets) &&
            plan.outputId == s.nextId
  {
    var l, h := SpanExists(selected + targets);
    plan := C.Plan(source, SetOf(selected + targets), s.nextId, l, h);
    assert SetOf(selected + targets) == SetOf(selected) + SetOf(targets);
  }

  ghost predicate Blocked(levels: seq<seq<File>>, reserved: set<nat>, source: nat, c: File)
    requires source + 1 < |levels|
  {
    exists selected, lo, hi, g ::
      && Selection(levels[source], reserved, selected, lo, hi) && c in selected
      && (g in levels[source] || g in levels[source + 1]) && g.id in reserved && C.Overlaps(g, lo, hi)
  }

  ghost predicate Describes(plan: CompactionPlan, p: C.Plan) {
    plan.source == p.source && SetOf(plan.inputs) == p.inputs && plan.reserved == C.Ids(p.inputs) &&
    plan.outputId == p.outputId
  }

  function Retained(levels: seq<seq<File>>, ids: set<nat>): (r: seq<seq<File>>)
    ensures |r| == |levels| && forall l :: 0 <= l < |levels| ==> r[l] == Keep(levels[l], ids)
  {
    seq(|levels|, l requires 0 <= l < |levels| => Keep(levels[l], ids))
  }

  /** The levels without the dropped ids, the outputs pushed onto one of them. */
  function Renewed(levels: seq<seq<File>>, ids: set<nat>, outputs: seq<File>, level: nat): seq<seq<File>>
    requires level < |levels|
  {
    var kept := Retained(levels, ids);
    kept[level := kept[level] + outputs]
  }

  lemma {:induction false} KeepDistinct(files: seq<File>, ids: set<nat>)
    requires Distinct(files)
    ensures Distinct(Keep(files, ids))
    decreases |files|
  {
    if files != [] {
      var rest := files[1..];
      assert Distinct(rest);
      KeepDistinct(rest, ids);
      var k := Keep(rest, ids);
      forall i | 0 <= i < |k| ensures k[i].id != files[0].id {
        assert k[i] in rest;
      }
    }
  }

  lemma DistinctAppend(a: seq<File>, b: seq<File>)
    requires Distinct(a) && Distinct(b) && forall f, g :: f in a && g in b ==> f.id != g.id
    ensures Distinct(a + b)
  {
    var c := a + b;
    forall i, j | 0 <= i < j < |c| ensures c[i].id != c[j].id {
      if i < |a| <= j { assert a[i] in a && b[j - |a|] in b; }
    }
  }

  lemma DistinctInstall(levels: seq<seq<File>>, ids: set<nat>, outputs: seq<File>, level: nat)
    requires level < |levels| && AllDistinct(levels)
    ensures AllDistinct(Renewed(levels, ids, outputs, level)) <==> Distinct(Keep(levels[level], ids) + outputs)
  {
    var levels' := Renewed(levels, ids, outputs, level);
    forall l | 0 <= l < |levels| ensures Distinct(Keep(levels[l], ids)) { KeepDistinct(levels[l], ids); }
    assert levels'[level] == Keep(levels[level], ids) + outputs;
  }

  lemma FreshIsDistinct(levels: seq<seq<File>>, ids: set<nat>, outputs: seq<File>, level: nat)
    requires level < |levels| && AllDistinct(levels)
    ensures Distinct(outputs) && C.Ids(SetOf(outputs)) !! C.Ids(Flat(levels)) ==>
      Distinct(Keep(levels[level], ids) + outputs)
  {
    var k := Keep(levels[level], ids);
    KeepDistinct(levels[level], ids);
    if Distinct(outputs) && C.Ids(SetOf(outputs)) !! C.Ids(Flat(levels)) {
      forall f, g | f in k && g in outputs ensures f.id != g.id {
        var i :| 0 <= i < |levels[level]| && levels[level][i] == f;
        assert levels[level][i] in Flat(levels);
        assert f.id in C.Ids(Flat(levels)) && g in SetOf(outputs) && g.id in C.Ids(SetOf(outputs));
      }
      DistinctAppend(k, outputs);
    }
  }

  lemma Replaced(levels: seq<seq<File>>, p: C.Plan, outputs: seq<File>)
    requires Tagged(levels) && AllDistinct(levels) && p.source + 1 < |levels|
    requires forall o :: o in outputs ==> o.level == p.source + 1
    ensures var levels' := Renewed(levels, C.Ids(p.inputs), outputs, p.source + 1);
      && Tagged(levels') && Flat(levels') == C.Remaining(Flat(levels), p.inputs) + SetOf(outputs)
      && (AllDistinct(levels') <==> Distinct(Keep(levels[p.source + 1], C.Ids(p.inputs)) + outputs))
  {
    FlatInstall(levels, C.Ids(p.inputs), outputs, p.source + 1);
    DistinctInstall(levels, C.Ids(p.inputs), outputs, p.source + 1);
  }

  lemma FlatInstall(levels: seq<seq<File>>, ids: set<nat>, outputs: seq<File>, level: nat)
    requires Tagged(levels) && level < |levels| && forall o :: o in outputs ==> o.level == level
    ensures var levels' := Renewed(levels, ids, outputs, level);
      && Tagged(levels')
      && Flat(levels') == (set f | f in Flat(levels) && f.id !in ids) + SetOf(outputs)
  {
    var levels': seq<seq<File>> := Renewed(levels, ids, outputs, level);
    forall l: nat, i: nat | 0 <= l < |levels'| && 0 <= i < |levels'[l]| ensures levels'[l][i].level == l {
      assert levels'[l][i] in levels'[l];
      if levels'[l][i] in Keep(levels[l], ids) { assert levels'[l][i] in levels[l]; }
    }
    forall g ensures g in Flat(levels') <==> g in (set f | f in Flat(levels) && f.id !in ids) + SetOf(outputs) {
      InFlat(levels, g);
      InFlat(levels', g);
    }
  }

  lemma FlatPush(levels: seq<seq<File>>, f: File)
    requires Tagged(levels) && f.level < |levels|
    ensures var levels' := levels[f.level := levels[f.level] + [f]];
      Tagged(levels') && Flat(levels') == Flat(levels) + {f}
  {
    var levels' := levels[f.level := levels[f.level] + [f]];
    forall g ensures g in Flat(levels') <==> g in Flat(levels) + {f} {
      InFlat(levels, g);
      InFlat(levels', g);
    }
  }
}
