/** The leveled file catalog under any number of compaction workers.

    A worker picks inputs and reserves them under the catalog lock, merges without the lock,
    and installs or aborts under the lock again.  Each locked section is one step here. */
module Catalog {
  import opened Keys

  datatype File = File(id: nat, level: nat, smallest: Key, largest: Key)

  /** `lo` and `hi` are the smallest and largest key of the inputs. */
  datatype Plan = Plan(source: nat, inputs: set<File>, outputId: nat, lo: Key, hi: Key)

  /** `held` are file ids handed out and not yet used. */
  datatype State = State(files: set<File>, reserved: set<nat>, plans: set<Plan>, held: set<nat>, nextId: nat)

  predicate Overlaps(f: File, lo: Key, hi: Key) {
    f.smallest <= hi && f.largest >= lo
  }

  function Ids(files: set<File>): set<nat> {
    set f | f in files :: f.id
  }

  predicate Hits(files: set<File>, k: Key) {
    exists f :: f in files && f.smallest <= k <= f.largest
  }

  /** The files lie in [lo, hi] and leave no gap in it. */
  ghost predicate Covers(files: set<File>, lo: Key, hi: Key) {
    && lo <= hi
    && (forall f :: f in files ==> lo <= f.smallest <= f.largest <= hi)
    && (forall k :: lo <= k <= hi ==> Hits(files, k))
  }

  // ---------------------------------------------------------------- steps

  /** What a pick selects: unreserved source files without gaps, closed under overlap when
      the source is level 0, and every file of the next level they overlap. */
  ghost predicate Selects(files: set<File>, reserved: set<nat>, source: nat, chosen: set<File>, lo: Key, hi: Key,
                          targets: set<File>) {
    && chosen != {} && Covers(chosen, lo, hi)
    && (forall f :: f in chosen ==> f in files && f.level == source && f.id !in reserved)
    && (if source == 0 then forall f :: f in files && f.level == 0 && Overlaps(f, lo, hi) ==> f in chosen
        else |chosen| == 1)
    && (forall f :: f in targets <==> f in files && f.level == source + 1 && Overlaps(f, lo, hi))
    && (forall f :: f in targets ==> f.id !in reserved)
  }

  ghost predicate Picks(s: State, p: Plan) {
    && p.outputId == s.nextId
    && exists chosen, lo, hi, targets ::
         && Selects(s.files, s.reserved, p.source, chosen, lo, hi, targets)
         && p.inputs == chosen + targets && Span(p.inputs, p.lo, p.hi)
  }

  ghost predicate Span(files: set<File>, lo: Key, hi: Key) {
    && (forall f :: f in files ==> lo <= f.smallest && f.largest <= hi)
    && (exists f :: f in files && f.smallest == lo) && (exists f :: f in files && f.largest == hi)
  }

  /** Outputs of a merge: their bounds are keys of the inputs, and split runs are disjoint. */
  ghost predicate Produced(p: Plan, outputs: set<File>) {
    && outputs != {}
    && (forall o :: o in outputs ==>
          o.level == p.source + 1 && o.smallest <= o.largest && Hits(p.inputs, o.smallest) && Hits(p.inputs, o.largest))
    && (forall o, q :: o in outputs && q in outputs && o != q ==> o.id != q.id && !Overlaps(o, q.smallest, q.largest))
  }

  /** Every check of `install_outputs`. */
  ghost predicate InstallAccepts(s: State, p: Plan, outputs: set<File>) {
    && outputs != {}
    && Ids(p.inputs) <= s.reserved
    && Ids(p.inputs) <= Ids(s.files)
    && (forall o, f :: o in outputs && f in s.files && f.level == o.level && f.id !in Ids(p.inputs) ==>
          !Overlaps(f, o.smallest, o.largest))
    && (forall o :: o in outputs ==> o.level == p.source + 1)
    && (forall o, q :: o in outputs && q in outputs && o != q ==> !Overlaps(o, q.smallest, q.largest))
  }

  function Installed(s: State, p: Plan, outputs: set<File>): State {
    s.(files := Remaining(s.files, p.inputs) + outputs,
       reserved := s.reserved - Ids(p.inputs),
       plans := s.plans - {p},
       held := s.held - Ids(outputs))
  }

  function PickedUp(s: State, p: Plan): State {
    s.(reserved := s.reserved + Ids(p.inputs), plans := s.plans + {p}, nextId := s.nextId + 1)
  }

  function Aborted(s: State, p: Plan): State {
    s.(reserved := s.reserved - Ids(p.inputs), plans := s.plans - {p})
  }

  datatype Action =
    | Allocate
    | AddLevel0(file: File)
    | Pick(plan: Plan)
    | Abort(plan: Plan)
    | Install(plan: Plan, outputs: set<File>)

  ghost predicate Step(s: State, a: Action, s': State) {
    match a
    case Allocate => s' == s.(held := s.held + {s.nextId}, nextId := s.nextId + 1)
    case AddLevel0(f) =>
      && f.level == 0 && f.smallest <= f.largest && f.id in s.held
      && s' == s.(files := s.files + {f}, held := s.held - {f.id})
    case Pick(p) =>
      Picks(s, p) && s' == PickedUp(s, p)
    case Abort(p) => p in s.plans && s' == Aborted(s, p)
    case Install(p, outputs) =>
      && p in s.plans && Produced(p, outputs) && Ids(outputs) <= s.held + {p.outputId}
      && s' == if InstallAccepts(s, p, outputs) then Installed(s, p, outputs) else Aborted(s, p)
  }

  ghost predicate Run(ss: seq<State>, acts: seq<Action>) {
    && |ss| == |acts| + 1 && ss[0] == State({}, {}, {}, {}, 0)
    && forall i {:trigger acts[i]} :: 0 <= i < |acts| ==> Step(ss[i], acts[i], ss[i + 1])
  }

  // ---------------------------------------------------------------- invariant

  ghost predicate IdsUnique(files: set<File>) {
    forall f, g :: f in files && g in files && f.id == g.id ==> f == g
  }

  ghost predicate LevelsDisjoint(files: set<File>) {
    forall f, g :: f in files && g in files && f != g && f.level == g.level && f.level > 0 ==>
      !Overlaps(f, g.smallest, g.largest)
  }

  /** An in-flight plan: its inputs are in the catalog, leave no gap, and no other file of
      the output level reaches into their span. */
  ghost predicate PlanOk(files: set<File>, p: Plan) {
    && p.inputs != {} && p.inputs <= files && Covers(p.inputs, p.lo, p.hi)
    && (forall f :: f in p.inputs ==> f.level == p.source || f.level == p.source + 1)
    && (forall f :: f in files && f !in p.inputs && f.level == p.source + 1 ==> !Overlaps(f, p.lo, p.hi))
  }

  ghost predicate Apart(p: Plan, q: Plan) {
    && p.inputs !! q.inputs && p.outputId != q.outputId
    && (p.source == q.source ==> p.hi < q.lo || q.hi < p.lo)
  }

  ghost predicate PlansOk(files: set<File>, plans: set<Plan>) {
    && (forall p :: p in plans ==> PlanOk(files, p))
    && (forall p, q :: p in plans && q in plans && p != q ==> Apart(p, q))
  }

  ghost predicate ReservedExact(reserved: set<nat>, plans: set<Plan>) {
    && (forall p, f :: p in plans && f in p.inputs ==> f.id in reserved)
    && (forall i :: i in reserved ==> exists p :: p in plans && i in Ids(p.inputs))
  }

  ghost predicate IdsFresh(s: State) {
    && (forall f :: f in s.files ==> f.id < s.nextId && f.id !in s.held && f.smallest <= f.largest)
    && (forall i :: i in s.held ==> i < s.nextId)
    && (forall p :: p in s.plans ==> p.outputId < s.nextId && p.outputId !in s.held && p.outputId !in Ids(s.files))
  }

  ghost predicate Inv(s: State) {
    && IdsUnique(s.files) && LevelsDisjoint(s.files) && PlansOk(s.files, s.plans)
    && ReservedExact(s.reserved, s.plans) && IdsFresh(s)
  }

  // ---------------------------------------------------------------- geometry

  lemma CoverMeets(files: set<File>, lo: Key, hi: Key, a: Key, b: Key) returns (f: File)
    requires Covers(files, lo, hi) && a <= b && a <= hi && lo <= b
    ensures f in files && Overlaps(f, a, b)
  {
    var k := if a < lo then lo else a;
    assert Hits(files, k);
    f :| f in files && f.smallest <= k <= f.largest;
  }

  /** Source files without a gap plus everything they overlap: still without a gap. */
  lemma SpanCovered(chosen: set<File>, lo: Key, hi: Key, targets: set<File>, lo': Key, hi': Key)
    requires chosen != {} && Covers(chosen, lo, hi) && Span(chosen + targets, lo', hi')
    requires forall f :: f in targets ==> f.smallest <= f.largest && Overlaps(f, lo, hi)
    ensures Covers(chosen + targets, lo', hi')
  {
    var all := chosen + targets;
    var l :| l in all && l.smallest == lo';
    var h :| h in all && h.largest == hi';
    forall k | lo' <= k <= hi' ensures Hits(all, k) {
      if k < lo {
        assert l.smallest <= k <= l.largest;
      } else if k > hi {
        assert h.smallest <= k <= h.largest;
      } else {
        assert Hits(chosen, k);
        var f :| f in chosen && f.smallest <= k <= f.largest;
        assert f in all;
      }
    }
  }

  // ---------------------------------------------------------------- pick

  lemma PickPlanOk(s: State, p: Plan, chosen: set<File>, lo: Key, hi: Key, targets: set<File>)
    requires Inv(s) && Selects(s.files, s.reserved, p.source, chosen, lo, hi, targets)
    requires p.inputs == chosen + targets && Span(p.inputs, p.lo, p.hi)
    ensures PlanOk(s.files, p)
  {
    SpanCovered(chosen, lo, hi, targets, p.lo, p.hi);
    forall f | f in s.files && f !in p.inputs && f.level == p.source + 1 ensures !Overlaps(f, p.lo, p.hi) {
      if Overlaps(f, p.lo, p.hi) {
        var g := CoverMeets(p.inputs, p.lo, p.hi, f.smallest, f.largest);
      }
    }
  }

  /** The span of a new plan stays clear of every plan in flight from the same level: a
      file of either that reached into the other would have been reserved already. */
  lemma PickApart(s: State, p: Plan, chosen: set<File>, lo: Key, hi: Key, targets: set<File>, q: Plan)
    requires Inv(s) && Selects(s.files, s.reserved, p.source, chosen, lo, hi, targets)
    requires p.inputs == chosen + targets && Span(p.inputs, p.lo, p.hi) && p.outputId == s.nextId && q in s.plans
    ensures Apart(p, q)
  {
    assert PlanOk(s.files, q);
    PickPlanOk(s, p, chosen, lo, hi, targets);
    forall f | f in q.inputs ensures f.id in s.reserved && f !in p.inputs {}
    if p.source == q.source && !(p.hi < q.lo || q.hi < p.lo) {
      var f := CoverMeets(p.inputs, p.lo, p.hi, q.lo, q.hi);
      if f in chosen {
        var g := CoverMeets(q.inputs, q.lo, q.hi, lo, hi);
        ReservedStaysClear(s, p.source, chosen, lo, hi, targets, g);
      }
    }
  }

  /** No reserved file of the two levels reaches into the selected range. */
  lemma ReservedStaysClear(s: State, source: nat, chosen: set<File>, lo: Key, hi: Key, targets: set<File>, g: File)
    requires Inv(s) && Selects(s.files, s.reserved, source, chosen, lo, hi, targets)
    requires g in s.files && g.id in s.reserved && (g.level == source || g.level == source + 1)
    ensures !Overlaps(g, lo, hi)
  {
    if g.level == source && source > 0 {
      var c :| c in chosen;
      assert chosen == {c} by { OnlyOne(chosen, c); }
      assert Hits(chosen, lo) && Hits(chosen, hi);
    }
  }

  lemma OnlyOne(xs: set<File>, c: File)
    requires c in xs && |xs| == 1
    ensures xs == {c}
  {
    assert |xs - {c}| == 0;
  }

  lemma PickReserves(reserved: set<nat>, plans: set<Plan>, p: Plan)
    requires ReservedExact(reserved, plans)
    ensures ReservedExact(reserved + Ids(p.inputs), plans + {p})
  {
    forall i | i in reserved + Ids(p.inputs) ensures exists q :: q in plans + {p} && i in Ids(q.inputs) {
      if i in reserved {
        var q :| q in plans && i in Ids(q.inputs);
        assert q in plans + {p};
      } else {
        assert p in plans + {p};
      }
    }
    forall q, f | q in plans + {p} && f in q.inputs ensures f.id in reserved + Ids(p.inputs) {
      if q == p { assert f.id in Ids(p.inputs); }
    }
  }

  lemma OneMorePlan(files: set<File>, plans: set<Plan>, p: Plan)
    requires PlansOk(files, plans) && PlanOk(files, p) && forall q :: q in plans ==> Apart(p, q)
    ensures PlansOk(files, plans + {p})
  {
    forall q, r | q in plans + {p} && r in plans + {p} && q != r ensures Apart(q, r) {
      if r == p { assert Apart(p, q); }
    }
  }

  lemma PickPlans(s: State, p: Plan, chosen: set<File>, lo: Key, hi: Key, targets: set<File>)
    requires Inv(s) && Selects(s.files, s.reserved, p.source, chosen, lo, hi, targets)
    requires p.inputs == chosen + targets && Span(p.inputs, p.lo, p.hi) && p.outputId == s.nextId
    ensures PlanOk(s.files, p) && forall q :: q in s.plans ==> Apart(p, q)
  {
    PickPlanOk(s, p, chosen, lo, hi, targets);
    forall q | q in s.plans ensures Apart(p, q) { PickApart(s, p, chosen, lo, hi, targets, q); }
  }

  lemma PickPlansOk(s: State, p: Plan)
    requires Inv(s) && Picks(s, p)
    ensures PlansOk(s.files, s.plans + {p}) && PlanOk(s.files, p)
  {
    var chosen, lo, hi, targets :|
      Selects(s.files, s.reserved, p.source, chosen, lo, hi, targets) && p.inputs == chosen + targets &&
      Span(p.inputs, p.lo, p.hi);
    PickPlans(s, p, chosen, lo, hi, targets);
    OneMorePlan(s.files, s.plans, p);
  }

  lemma PickFresh(s: State, p: Plan)
    requires IdsFresh(s) && p.outputId == s.nextId
    ensures IdsFresh(PickedUp(s, p))
  {
  }

  lemma PickKeepsInv(s: State, p: Plan)
    requires Inv(s) && Picks(s, p)
    ensures Inv(PickedUp(s, p))
  {
    PickPlansOk(s, p);
    PickReserves(s.reserved, s.plans, p);
    PickFresh(s, p);
  }

  // ---------------------------------------------------------------- install and abort

  lemma ProducedInSpan(p: Plan, outputs: set<File>, o: File)
    requires Covers(p.inputs, p.lo, p.hi) && Produced(p, outputs) && o in outputs
    ensures p.lo <= o.smallest && o.largest <= p.hi
  {
    var f :| f in p.inputs && f.smallest <= o.smallest <= f.largest;
    var g :| g in p.inputs && g.smallest <= o.largest <= g.largest;
  }

  lemma OutputsClear(files: set<File>, p: Plan, outputs: set<File>, o: File, f: File)
    requires PlanOk(files, p) && Produced(p, outputs) && o in outputs && f in files && f.level == o.level &&
             f !in p.inputs
    ensures !Overlaps(f, o.smallest, o.largest)
  {
    ProducedInSpan(p, outputs, o);
  }

  /** The checks of `install_outputs` never reject a plan that is still in flight. */
  lemma InstallNeverRejects(s: State, p: Plan, outputs: set<File>)
    requires PlanOk(s.files, p) && Produced(p, outputs) && forall f :: f in p.inputs ==> f.id in s.reserved
    ensures InstallAccepts(s, p, outputs)
  {
    forall o, f | o in outputs && f in s.files && f.level == o.level && f.id !in Ids(p.inputs)
      ensures !Overlaps(f, o.smallest, o.largest)
    {
      assert f in p.inputs ==> f.id in Ids(p.inputs);
      OutputsClear(s.files, p, outputs, o, f);
    }
    forall i | i in Ids(p.inputs) ensures i in s.reserved && i in Ids(s.files) {
      var f :| f in p.inputs && f.id == i;
      assert f in s.files;
    }
  }

  /** Ids identify inputs, so dropping by id drops exactly the inputs. */
  lemma DropExact(files: set<File>, inputs: set<File>, f: File)
    requires IdsUnique(files) && inputs <= files && f in files
    ensures f.id in Ids(inputs) <==> f in inputs
  {
  }

  lemma ReservedAfter(files: set<File>, reserved: set<nat>, plans: set<Plan>, p: Plan)
    requires IdsUnique(files) && ReservedExact(reserved, plans) && p in plans
    requires forall q :: q in plans ==> q.inputs <= files && (q != p ==> q.inputs !! p.inputs)
    ensures ReservedExact(reserved - Ids(p.inputs), plans - {p})
  {
    forall q, f | q in plans - {p} && f in q.inputs ensures f.id in reserved - Ids(p.inputs) {
      DropExact(files, p.inputs, f);
    }
    forall i | i in reserved - Ids(p.inputs) ensures exists q :: q in plans - {p} && i in Ids(q.inputs) {
      var q :| q in plans && i in Ids(q.inputs);
      assert q in plans - {p};
    }
  }

  function Remaining(files: set<File>, inputs: set<File>): set<File> {
    set f | f in files && f.id !in Ids(inputs)
  }

  lemma OtherPlanKept(files: set<File>, p: Plan, outputs: set<File>, q: Plan)
    requires IdsUnique(files) && PlanOk(files, p) && PlanOk(files, q) && Apart(p, q) && Produced(p, outputs)
    ensures PlanOk(Remaining(files, p.inputs) + outputs, q)
  {
    var files' := Remaining(files, p.inputs) + outputs;
    forall f | f in q.inputs ensures f in files' { DropExact(files, p.inputs, f); }
    forall f | f in files' && f !in q.inputs && f.level == q.source + 1 ensures !Overlaps(f, q.lo, q.hi) {
      if f in outputs { ProducedInSpan(p, outputs, f); }
    }
  }

  lemma InstallLevels(files: set<File>, p: Plan, outputs: set<File>)
    requires IdsUnique(files) && LevelsDisjoint(files) && PlanOk(files, p) && Produced(p, outputs)
    ensures LevelsDisjoint(Remaining(files, p.inputs) + outputs)
  {
    var files' := Remaining(files, p.inputs) + outputs;
    forall f, g | f in files' && g in files' && f != g && f.level == g.level && f.level > 0
      ensures !Overlaps(f, g.smallest, g.largest)
    {
      if f in outputs && g !in outputs {
        DropExact(files, p.inputs, g);
        OutputsClear(files, p, outputs, f, g);
      } else if g in outputs && f !in outputs {
        DropExact(files, p.inputs, f);
        OutputsClear(files, p, outputs, g, f);
      }
    }
  }

  lemma InstallIds(files: set<File>, p: Plan, outputs: set<File>)
    requires IdsUnique(files) && Produced(p, outputs) && Ids(outputs) !! Ids(files)
    ensures IdsUnique(Remaining(files, p.inputs) + outputs)
  {
    forall o, f | o in outputs && f in files ensures o.id != f.id {
      assert o.id in Ids(outputs) && f.id in Ids(files);
    }
  }

  lemma InstallFresh(s: State, p: Plan, outputs: set<File>)
    requires IdsFresh(s) && p in s.plans && Produced(p, outputs) && Ids(outputs) <= s.held + {p.outputId}
    requires forall q :: q in s.plans && q != p ==> q.outputId != p.outputId
    ensures IdsFresh(Installed(s, p, outputs)) && Ids(outputs) !! Ids(s.files)
  {
    var s' := Installed(s, p, outputs);
    forall o | o in outputs ensures o.id in s.held + {p.outputId} && o.id in Ids(outputs) {}
    forall f | f in s.files ensures f.id !in Ids(outputs) {
      assert f.id in Ids(s.files);
    }
    forall q, f | q in s'.plans && f in s'.files ensures f.id != q.outputId {
      if f in s.files { assert f.id in Ids(s.files); }
    }
  }

  lemma PlansFacts(s: State, p: Plan)
    requires Inv(s) && p in s.plans
    ensures PlanOk(s.files, p) && forall f :: f in p.inputs ==> f.id in s.reserved
    ensures forall q :: q in s.plans ==>
      q.inputs <= s.files && (q != p ==> q.inputs !! p.inputs && q.outputId != p.outputId)
  {
    forall q | q in s.plans
      ensures q.inputs <= s.files && (q != p ==> q.inputs !! p.inputs && q.outputId != p.outputId)
    {
      assert PlanOk(s.files, q);
      if q != p { assert Apart(p, q); }
    }
  }

  lemma InstallKeepsPlans(s: State, p: Plan, outputs: set<File>)
    requires IdsUnique(s.files) && PlansOk(s.files, s.plans) && p in s.plans && Produced(p, outputs)
    ensures PlansOk(Remaining(s.files, p.inputs) + outputs, s.plans - {p})
  {
    forall q | q in s.plans - {p} ensures PlanOk(Remaining(s.files, p.inputs) + outputs, q) {
      OtherPlanKept(s.files, p, outputs, q);
    }
  }

  lemma InstallKeepsInv(s: State, p: Plan, outputs: set<File>)
    requires Inv(s) && p in s.plans && Produced(p, outputs) && Ids(outputs) <= s.held + {p.outputId}
    ensures Inv(Installed(s, p, outputs))
  {
    PlansFacts(s, p);
    InstallFresh(s, p, outputs);
    InstallIds(s.files, p, outputs);
    InstallLevels(s.files, p, outputs);
    InstallKeepsPlans(s, p, outputs);
    ReservedAfter(s.files, s.reserved, s.plans, p);
  }

  lemma StepKeepsInv(s: State, a: Action, s': State)
    requires Inv(s) && Step(s, a, s')
    ensures Inv(s')
  {
    match a
    case Allocate =>
    case AddLevel0(f) => AddKeepsInv(s, f, s');
    case Pick(p) => PickKeepsInv(s, p);
    case Abort(p) => AbortKeepsInv(s, p);
    case Install(p, outputs) =>
      PlansFacts(s, p);
      InstallNeverRejects(s, p, outputs);
      InstallKeepsInv(s, p, outputs);
  }

  lemma AbortKeepsInv(s: State, p: Plan)
    requires Inv(s) && p in s.plans
    ensures Inv(Aborted(s, p))
  {
    PlansFacts(s, p);
    ReservedAfter(s.files, s.reserved, s.plans, p);
  }

  lemma AddFresh(s: State, f: File)
    requires IdsFresh(s) && IdsUnique(s.files) && f.smallest <= f.largest && f.id in s.held
    ensures IdsFresh(s.(files := s.files + {f}, held := s.held - {f.id})) && IdsUnique(s.files + {f})
  {
    assert Ids(s.files + {f}) == Ids(s.files) + {f.id};
  }

  lemma AddPlans(files: set<File>, plans: set<Plan>, f: File)
    requires PlansOk(files, plans) && f.level == 0
    ensures PlansOk(files + {f}, plans)
  {
    forall p | p in plans ensures PlanOk(files + {f}, p) { assert PlanOk(files, p); }
  }

  lemma AddKeepsInv(s: State, f: File, s': State)
    requires Inv(s) && Step(s, AddLevel0(f), s')
    ensures Inv(s')
  {
    AddFresh(s, f);
    AddPlans(s.files, s.plans, f);
  }

  lemma {:induction false} RunKeepsInv(ss: seq<State>, acts: seq<Action>, n: nat)
    requires Run(ss, acts) && n < |ss|
    ensures Inv(ss[n])
    decreases n
  {
    if n > 0 {
      RunKeepsInv(ss, acts, n - 1);
      StepKeepsInv(ss[n - 1], acts[n - 1], ss[n]);
    }
  }

  // ---------------------------------------------------------------- main results

  predicate Within(k: Key, lo: Key, hi: Key) { lo <= k <= hi }

  /** Two ranges overlap exactly when they share a key, end points included. */
  lemma OverlapsExactly(f: File, lo: Key, hi: Key)
    requires f.smallest <= f.largest && lo <= hi
    ensures Overlaps(f, lo, hi) <==> exists k :: Within(k, f.smallest, f.largest) && Within(k, lo, hi)
  {
    if Overlaps(f, lo, hi) {
      var k := if f.smallest >= lo then f.smallest else lo;
      assert Within(k, f.smallest, f.largest) && Within(k, lo, hi);
    }
  }

  /** Whatever the workers do: ids are unique, no key lies in two files of a level from 1 up,
      plans in flight hold disjoint sets of files that are still there, and exactly those are
      reserved. */
  lemma CatalogStaysSound(ss: seq<State>, acts: seq<Action>, n: nat)
    requires Run(ss, acts) && n < |ss|
    ensures IdsUnique(ss[n].files) && LevelsDisjoint(ss[n].files) && ReservedExact(ss[n].reserved, ss[n].plans)
    ensures forall p :: p in ss[n].plans ==> p.inputs <= ss[n].files
    ensures forall p, q :: p in ss[n].plans && q in ss[n].plans && p != q ==> p.inputs !! q.inputs
    ensures forall f, g, k ::
      (&& f in ss[n].files && g in ss[n].files && f.level == g.level && f.level > 0
       && Within(k, f.smallest, f.largest) && Within(k, g.smallest, g.largest)) ==> f == g
  {
    RunKeepsInv(ss, acts, n);
    forall f, g, k | f in ss[n].files && g in ss[n].files && f.level == g.level && f.level > 0 &&
      Within(k, f.smallest, f.largest) && Within(k, g.smallest, g.largest)
      ensures f == g
    {
      OverlapsExactly(f, g.smallest, g.largest);
    }
    forall p | p in ss[n].plans ensures p.inputs <= ss[n].files { assert PlanOk(ss[n].files, p); }
    forall p, q | p in ss[n].plans && q in ss[n].plans && p != q ensures p.inputs !! q.inputs { assert Apart(p, q); }
  }

  /** An install reached in any run goes through. */
  lemma InstallsGoThrough(ss: seq<State>, acts: seq<Action>, n: nat)
    requires Run(ss, acts) && n < |acts| && acts[n].Install?
    ensures ss[n + 1] == Installed(ss[n], acts[n].plan, acts[n].outputs)
  {
    RunKeepsInv(ss, acts, n);
    var a := acts[n];
    PlansFacts(ss[n], a.plan);
    InstallNeverRejects(ss[n], a.plan, a.outputs);
  }
}
